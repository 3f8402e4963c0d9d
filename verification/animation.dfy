// CharacterAnimation: picks one of twelve sprite animations from an animation
// signal ("walk", "turn", "idle") and the input direction, and restarts the
// sprite only when the pick changes.

module Animation {
  import opened Geometry

  /** ECharacterAnimation, in declaration order. */
  datatype ECharacterAnimation =
    | idle_down | idle_up | idle_left | idle_right
    | turn_down | turn_up | turn_left | turn_right
    | walk_down | walk_up | walk_left | walk_right

  /**
   * The enum value's ToString(), the name passed to Play: the kind, an
   * underscore, then the direction.
   */
  function Name(a: ECharacterAnimation): string
  {
    match a
    case idle_down => "idle" + "_" + "down"
    case idle_up => "idle" + "_" + "up"
    case idle_left => "idle" + "_" + "left"
    case idle_right => "idle" + "_" + "right"
    case turn_down => "turn" + "_" + "down"
    case turn_up => "turn" + "_" + "up"
    case turn_left => "turn" + "_" + "left"
    case turn_right => "turn" + "_" + "right"
    case walk_down => "walk" + "_" + "down"
    case walk_up => "walk" + "_" + "up"
    case walk_left => "walk" + "_" + "left"
    case walk_right => "walk" + "_" + "right"
  }

  /** The lower-case suffix naming a cardinal direction; empty for any other vector. */
  function DirectionName(d: Vec): string
  {
    if d == Up then "up"
    else if d == Down then "down"
    else if d == Left then "left"
    else if d == Right then "right"
    else ""
  }

  predicate IsKind(kind: string) { kind == "walk" || kind == "turn" || kind == "idle" }

  /**
   * The switch in PlayAnimation: for a known kind and a cardinal direction the
   * animation named "<kind>_<direction>"; nothing for an unknown kind (the
   * switch has no default) or a non-cardinal direction (no branch matches).
   */
  function Select(kind: string, direction: Vec): (r: Option<ECharacterAnimation>)
    ensures r.Some? <==> IsKind(kind) && IsCardinal(direction)
    ensures r.Some? ==> Name(r.value) == kind + "_" + DirectionName(direction)
  {
    if kind == "walk" then
      if direction == Up then Some(walk_up)
      else if direction == Down then Some(walk_down)
      else if direction == Left then Some(walk_left)
      else if direction == Right then Some(walk_right)
      else None
    else if kind == "turn" then
      if direction == Up then Some(turn_up)
      else if direction == Down then Some(turn_down)
      else if direction == Left then Some(turn_left)
      else if direction == Right then Some(turn_right)
      else None
    else if kind == "idle" then
      if direction == Up then Some(idle_up)
      else if direction == Down then Some(idle_down)
      else if direction == Left then Some(idle_left)
      else if direction == Right then Some(idle_right)
      else None
    else None
  }

  /** Distinct (kind, direction) requests select distinct animations. */
  lemma SelectInjective(k1: string, d1: Vec, k2: string, d2: Vec)
    requires Select(k1, d1).Some? && Select(k1, d1) == Select(k2, d2)
    ensures k1 == k2 && d1 == d2
  {
    var n := Name(Select(k1, d1).value);
    assert n == k1 + "_" + DirectionName(d1) == k2 + "_" + DirectionName(d2);
    assert |k1| == 4 && |k2| == 4;
    assert k1 == n[..4] == k2;
    assert DirectionName(d1) == n[5..] == DirectionName(d2);
  }

  /** Every one of the twelve animations is selected by some request. */
  lemma SelectSurjective(a: ECharacterAnimation)
    ensures exists kind, d :: IsCardinal(d) && Select(kind, d) == Some(a)
  {
    var kind := if a.idle_down? || a.idle_up? || a.idle_left? || a.idle_right? then "idle"
                else if a.turn_down? || a.turn_up? || a.turn_left? || a.turn_right? then "turn"
                else "walk";
    var d := if a.idle_down? || a.turn_down? || a.walk_down? then Down
             else if a.idle_up? || a.turn_up? || a.walk_up? then Up
             else if a.idle_left? || a.turn_left? || a.walk_left? then Left
             else Right;
    assert Select(kind, d) == Some(a);
  }

  /** The stored animation after a PlayAnimation call made at rest. */
  function AfterPlay(current: ECharacterAnimation, kind: string, direction: Vec): ECharacterAnimation
  {
    match Select(kind, direction)
    case Some(a) => a
    case None => current
  }

  /** Repeating a request leaves the stored animation where the first one put it. */
  lemma AfterPlayIdempotent(current: ECharacterAnimation, kind: string, direction: Vec)
    ensures AfterPlay(AfterPlay(current, kind, direction), kind, direction) == AfterPlay(current, kind, direction)
  {
  }

  class CharacterAnimation {
    /** The ECharacterAnimation field: the animation last picked. */
    var Current: ECharacterAnimation
    /** The names passed to Play, oldest first. */
    var Played: seq<string>

    constructor ()
      ensures Current == idle_down && Played == []
    {
      Current := idle_down;
      Played := [];
    }

    /**
     * Handles an animation signal; direction is CharacterInput.Direction and
     * isMoving is CharacterMovement.IsMoving() at the time of the call.
     */
    method PlayAnimation(animationType: string, direction: Vec, isMoving: bool)
      modifies this
      ensures isMoving ==> unchanged(this)
      ensures !isMoving ==> Current == AfterPlay(old(Current), animationType, direction)
      ensures !isMoving ==> Played == old(Played) + if Current != old(Current) then [Name(Current)] else []
    {
      var previousAnimation := Current;
      if isMoving {
        return;
      }
      if animationType == "walk" {
        if direction == Up {
          Current := walk_up;
        } else if direction == Down {
          Current := walk_down;
        } else if direction == Left {
          Current := walk_left;
        } else if direction == Right {
          Current := walk_right;
        }
      } else if animationType == "turn" {
        if direction == Up {
          Current := turn_up;
        } else if direction == Down {
          Current := turn_down;
        } else if direction == Left {
          Current := turn_left;
        } else if direction == Right {
          Current := turn_right;
        }
      } else if animationType == "idle" {
        if direction == Up {
          Current := idle_up;
        } else if direction == Down {
          Current := idle_down;
        } else if direction == Left {
          Current := idle_left;
        } else if direction == Right {
          Current := idle_right;
        }
      }
      if previousAnimation != Current {
        Played := Played + [Name(Current)];
      }
    }
  }

  /** The same request twice in a row restarts the sprite at most once. */
  method PlayTwice(sprite: CharacterAnimation, kind: string, direction: Vec)
    modifies sprite
    ensures |sprite.Played| <= |old(sprite.Played)| + 1
    ensures sprite.Current == AfterPlay(old(sprite.Current), kind, direction)
  {
    sprite.PlayAnimation(kind, direction, false);
    AfterPlayIdempotent(old(sprite.Current), kind, direction);
    sprite.PlayAnimation(kind, direction, false);
  }
}
