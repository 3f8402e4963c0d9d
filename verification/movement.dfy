// The grid-step state machine of a character (CharacterMovement): a step
// request becomes a one-cell walk or, over a matching ledge tile, a two-cell
// parabolic jump; every frame advances the step, and arrival snaps the
// character back onto the grid.

module Movement {
  import opened Geometry

  /** ECharacterMovement: whether the next accepted step walks or jumps. */
  datatype ECharacterMovement = WALKING | JUMPING

  /** The step state machine read off the IsWalking / IsJumping flags. */
  datatype MotionState = Idle | Walking | Jumping

  /**
   * What the TileMapLayer holds at the probed cell: no tile data at all, or
   * tile data whose custom "LEDGE" entry may be absent.
   */
  datatype Tile = NoTileData | TileData(ledge: Option<string>)

  /**
   * One collider reported by the physics point query, told apart by its
   * node type the way IsTargetOccupied switches on the type name.
   */
  datatype Occupant = TileMapLayer(cell: Tile) | SceneTriggerArea | OtherCollider

  /** How the first collider at the probed point treats the step. */
  datatype Verdict = Passable | Blocked | LedgeJump

  /** The animation signals CharacterMovement emits. */
  const WalkSignal := "walk"
  const TurnSignal := "turn"
  const IdleSignal := "idle"

  /** The LEDGE value naming a direction, if it is a cardinal one. */
  function LedgeName(d: Vec): Option<string>
  {
    if d == Up then Some("UP")
    else if d == Down then Some("DOWN")
    else if d == Left then Some("LEFT")
    else if d == Right then Some("RIGHT")
    else None
  }

  /**
   * GetTileMapLayerCollision's decision: a tile blocks unless its LEDGE value
   * names the direction of the step, and "UP" ledges are never crossed.
   */
  function TileVerdict(tile: Tile, direction: Vec): (v: Verdict)
    ensures v != Passable
    ensures v == LedgeJump <==>
      tile.TileData? && tile.ledge.Some? && tile.ledge == LedgeName(direction) && direction != Up
    ensures tile == TileData(Some("UP")) ==> v == Blocked
  {
    match tile
    case NoTileData => Blocked
    case TileData(None) => Blocked
    case TileData(Some(ledge)) =>
      if ledge == "DOWN" then (if direction == Down then LedgeJump else Blocked)
      else if ledge == "LEFT" then (if direction == Left then LedgeJump else Blocked)
      else if ledge == "RIGHT" then (if direction == Right then LedgeJump else Blocked)
      else Blocked
  }

  /**
   * IsTargetOccupied's decision over the colliders the query returned: only
   * the first one counts; a scene trigger never blocks, a tile layer defers to
   * the tile rule and anything else blocks.
   */
  function Occupancy(hits: seq<Occupant>, direction: Vec): (v: Verdict)
    ensures hits == [] ==> v == Passable
    ensures v == Passable <==> hits == [] || hits[0].SceneTriggerArea?
    ensures v == LedgeJump <==>
      hits != [] && hits[0].TileMapLayer? && TileVerdict(hits[0].cell, direction) == LedgeJump
  {
    if hits == [] then Passable
    else
      match hits[0]
      case TileMapLayer(cell) => TileVerdict(cell, direction)
      case SceneTriggerArea => Passable
      case OtherCollider => Blocked
  }

  /** Only the first collider decides: colliders after it never change the verdict. */
  lemma FirstColliderDecides(hits: seq<Occupant>, more: seq<Occupant>, direction: Vec)
    requires hits != []
    ensures Occupancy(hits + more, direction) == Occupancy(hits, direction)
  {
    assert (hits + more)[0] == hits[0];
  }

  /** The point the physics query samples: the target cell shifted by (+8, +8). */
  function ProbePoint(target: Vec): Vec
  {
    Vec(target.x + 8.0, target.y + 8.0)
  }

  /** The one-cell step target from a position in a direction. */
  function StepTarget(position: Vec, direction: Vec): Vec
  {
    position.Plus(direction.Scale(Grid))
  }

  /**
   * The vertical lift of a jump at a given progress: zero at take-off and at
   * landing, the full jump height half-way, and never above it in between.
   */
  function ParabolicOffset(height: real, progress: real): (offset: real)
    ensures progress == 0.0 || progress == 1.0 ==> offset == 0.0
    ensures progress == 0.5 ==> offset == height
    ensures 0.0 <= progress <= 1.0 && 0.0 <= height ==> 0.0 <= offset <= height
  {
    ParabolaBounded(height, progress);
    height * (1.0 - 4.0 * (progress - 0.5) * (progress - 0.5))
  }

  lemma ParabolaBounded(height: real, progress: real)
    ensures 0.0 <= progress <= 1.0 && 0.0 <= height ==>
      0.0 <= height * (1.0 - 4.0 * (progress - 0.5) * (progress - 0.5)) <= height
  {
    if !(0.0 <= progress <= 1.0 && 0.0 <= height) {
      return;
    }
    var e := progress - 0.5;
    if e >= 0.0 {
      assert e * e <= e * 0.5;
    } else {
      assert e * e <= (-e) * 0.5;
    }
    var s := 1.0 - 4.0 * e * e;
    assert 0.0 <= s <= 1.0;
    assert height * s <= height * 1.0;
  }

  /**
   * Where a jump puts the character at a given progress: the straight line
   * from start to target, lifted by the parabolic offset.
   */
  function JumpPosition(start: Vec, target: Vec, progress: real, height: real): (p: Vec)
    ensures progress == 0.0 ==> p == start
    ensures progress == 1.0 ==> p == target
    ensures progress == 0.5 ==> p == Vec(Lerp(start, target, 0.5).x, Lerp(start, target, 0.5).y - height)
  {
    var line := Lerp(start, target, progress);
    Vec(line.x, line.y - ParabolicOffset(height, progress))
  }

  /** Position after n walk frames of length step, ignoring the arrival check. */
  function WalkAfter(from: Vec, to: Vec, step: real, n: nat): Vec
  {
    if n == 0 then from else MoveToward(WalkAfter(from, to, step, n - 1), to, step)
  }

  /**
   * Arithmetic helper: the length n * step covered by n frames of length
   * step. It is defined frame by frame, as the walk is, so that the induction
   * below adds one step at a time instead of reasoning about the product.
   */
  function Walked(step: real, n: nat): (r: real)
    ensures r == n as real * step
  {
    if n == 0 then 0.0
    else
      var r := Walked(step, n - 1) + step;
      assert n as real * step == (n - 1) as real * step + step;
      r
  }

  lemma FrameDistance(prev: Vec, to: Vec, step: real, d: real, walked: real)
    requires step >= 0.0
    requires Dist(prev, to) == Max(0.0, d - walked)
    ensures Dist(MoveToward(prev, to, step), to) == Max(0.0, d - (walked + step))
  {
    MoveTowardProgress(prev, to, step);
  }

  /** Each walk frame of length step brings the character step closer, until it arrives. */
  lemma {:induction false} WalkAfterDistance(from: Vec, to: Vec, step: real, n: nat)
    requires step >= 0.0
    ensures Dist(WalkAfter(from, to, step, n), to) == Max(0.0, Dist(from, to) - Walked(step, n))
  {
    if n > 0 {
      WalkAfterDistance(from, to, step, n - 1);
      FrameDistance(WalkAfter(from, to, step, n - 1), to, step, Dist(from, to), Walked(step, n - 1));
    }
  }

  /** Enough walk frames reach the target exactly. */
  lemma WalkReachesTarget(from: Vec, to: Vec, step: real, n: nat)
    requires step >= 0.0
    requires n as real * step >= Dist(from, to)
    ensures WalkAfter(from, to, step, n) == to
  {
    WalkAfterDistance(from, to, step, n);
    DistZero(WalkAfter(from, to, step, n), to);
  }

  /** A walk that stops within one unit of a grid-aligned target is snapped onto it. */
  lemma ArrivalSnapsToTarget(position: Vec, target: Vec)
    requires OnGridVec(target)
    requires Dist(position, target) < 1.0
    ensures SnapVec(position) == target
  {
    SnapVecNear(position, target);
  }

  class CharacterMovement {
    /** The Node2D this component moves. */
    const Character: Node2D
    var TargetPosition: Vec
    var IsWalking: bool
    /** The ECharacterMovement field: JUMPING once a ledge promoted the current step. */
    var Mode: ECharacterMovement
    var StartPosition: Vec
    var IsJumping: bool
    const JumpHeight: real
    const LerpSpeed: real
    var Progress: real

    /**
     * The step invariant: never walking and jumping at once, the mode is
     * JUMPING exactly during a jump, and a jump in flight has not finished.
     */
    ghost predicate Valid()
      reads this
    {
      && !(IsWalking && IsJumping)
      && (Mode == JUMPING <==> IsJumping)
      && (IsJumping ==> Progress < 1.0)
    }

    ghost function State(): MotionState
      reads this
    {
      if IsWalking then Walking else if IsJumping then Jumping else Idle
    }

    /** A component at rest, with the inspector defaults for the step fields. */
    constructor (character: Node2D, jumpHeight: real, lerpSpeed: real)
      ensures Valid() && State() == Idle
      ensures Character == character && JumpHeight == jumpHeight && LerpSpeed == lerpSpeed
      ensures Mode == WALKING && Progress == 0.0 && TargetPosition == Down
    {
      Character := character;
      JumpHeight := jumpHeight;
      LerpSpeed := lerpSpeed;
      TargetPosition := Down;
      IsWalking := false;
      IsJumping := false;
      Mode := WALKING;
      StartPosition := Zero;
      Progress := 0.0;
    }

    function IsMoving(): (moving: bool)
      reads this
      ensures moving <==> State() != Idle
    {
      IsWalking || IsJumping
    }

    /** Tile rule; promotes the step to a jump as a side effect. */
    method GetTileMapLayerCollision(tile: Tile, direction: Vec) returns (blocks: bool)
      modifies this`Mode
      ensures blocks <==> TileVerdict(tile, direction) == Blocked
      ensures Mode == if TileVerdict(tile, direction) == LedgeJump then JUMPING else old(Mode)
    {
      blocks := true;
      match tile {
        case NoTileData =>
        case TileData(None) =>
        case TileData(Some(ledge)) =>
          if ledge == "DOWN" {
            if direction == Down {
              Mode := JUMPING;
              blocks := false;
            }
          } else if ledge == "LEFT" {
            if direction == Left {
              Mode := JUMPING;
              blocks := false;
            }
          } else if ledge == "RIGHT" {
            if direction == Right {
              Mode := JUMPING;
              blocks := false;
            }
          }
      }
    }

    /**
     * Queries the colliders at the probe point of a target cell; the first
     * one decides. The query is the space oracle.
     */
    method IsTargetOccupied(targetPosition: Vec, direction: Vec, space: Vec -> seq<Occupant>)
      returns (occupied: bool)
      modifies this`Mode
      ensures occupied <==> Occupancy(space(ProbePoint(targetPosition)), direction) == Blocked
      ensures Mode == if Occupancy(space(ProbePoint(targetPosition)), direction) == LedgeJump
                      then JUMPING else old(Mode)
    {
      var hits := space(ProbePoint(targetPosition));
      occupied := false;
      if |hits| > 0 {
        match hits[0] {
          case TileMapLayer(cell) =>
            occupied := GetTileMapLayerCollision(cell, direction);
          case SceneTriggerArea =>
            occupied := false;
          case OtherCollider =>
            occupied := true;
        }
      }
    }

    /**
     * Handles a Walk request from the input. Nothing happens during a level
     * transition; otherwise the one-cell target is always recorded, and the
     * step starts only from rest into a cell that does not block.
     */
    method StartMoving(direction: Vec, isChanging: bool, space: Vec -> seq<Occupant>)
      returns (emitted: seq<string>)
      requires Valid()
      modifies this
      ensures Valid()
      ensures isChanging ==> emitted == [] && unchanged(this)
      ensures !isChanging ==>
        var verdict := Occupancy(space(ProbePoint(StepTarget(Character.Position, direction))), direction);
        if old(IsMoving()) || verdict == Blocked then
          && emitted == []
          && TargetPosition == StepTarget(Character.Position, direction)
          && IsWalking == old(IsWalking) && IsJumping == old(IsJumping)
          && Progress == old(Progress) && StartPosition == old(StartPosition) && Mode == old(Mode)
        else if verdict == Passable then
          && emitted == [WalkSignal]
          && State() == Walking && Mode == WALKING
          && TargetPosition == StepTarget(Character.Position, direction)
          && Progress == old(Progress) && StartPosition == old(StartPosition)
        else
          && emitted == [WalkSignal]
          && State() == Jumping && Mode == JUMPING
          && Progress == 0.0 && StartPosition == Character.Position
          && TargetPosition == Character.Position.Plus(direction.Scale(Grid * 2.0))
    {
      emitted := [];
      if isChanging {
        return;
      }
      TargetPosition := StepTarget(Character.Position, direction);
      if !IsMoving() {
        var occupied := IsTargetOccupied(TargetPosition, direction, space);
        if !occupied {
          emitted := [WalkSignal];
          if Mode == JUMPING {
            Progress := 0.0;
            StartPosition := Character.Position;
            TargetPosition := Character.Position.Plus(direction.Scale(Grid * 2.0));
            IsJumping := true;
          } else {
            IsWalking := true;
          }
        }
      }
    }

    /**
     * What a walk frame did: the character moved delta * GRID_SIZE * 4
     * towards the target, and, once less than one pixel away, stopped and was
     * snapped onto the grid, landing on the target when that is on the grid.
     */
    twostate predicate WalkFrame(delta: real)
      reads this, Character
    {
      var moved := MoveToward(old(Character.Position), TargetPosition, delta * Grid * 4.0);
      if Dist(moved, TargetPosition) < 1.0 then
        && State() == Idle && Mode == WALKING
        && Character.Position == SnapVec(moved)
        && (OnGridVec(TargetPosition) ==> Character.Position == TargetPosition)
      else
        State() == Walking && Mode == old(Mode) && Character.Position == moved
    }

    /**
     * What a jump frame did: the progress grew by LerpSpeed * delta and the
     * character was put on the parabola; at progress 1 or more the jump
     * stopped and the character was snapped onto the grid.
     */
    twostate predicate JumpFrame(delta: real)
      reads this, Character
    {
      && Progress == old(Progress) + LerpSpeed * delta
      && var position := JumpPosition(StartPosition, TargetPosition, Progress, JumpHeight);
         if Progress >= 1.0 then
           && State() == Idle && Mode == WALKING
           && Character.Position == SnapVec(position)
           && (Progress == 1.0 && OnGridVec(TargetPosition) ==> Character.Position == TargetPosition)
         else
           State() == Jumping && Mode == JUMPING && Character.Position == position
    }

    /**
     * A walk frame: moves at GRID_SIZE * 4 pixels per second towards the
     * target and stops once less than one pixel away.
     */
    method Walk(delta: real)
      requires Valid()
      modifies this, Character
      ensures Valid()
      ensures TargetPosition == old(TargetPosition) && StartPosition == old(StartPosition)
      ensures Progress == old(Progress) && IsJumping == old(IsJumping)
      ensures !old(IsWalking) ==> unchanged(this) && unchanged(Character)
      ensures old(IsWalking) ==> WalkFrame(delta)
    {
      if IsWalking {
        Character.Position := MoveToward(Character.Position, TargetPosition, delta * Grid * 4.0);
        if Dist(Character.Position, TargetPosition) < 1.0 {
          if OnGridVec(TargetPosition) {
            ArrivalSnapsToTarget(Character.Position, TargetPosition);
          }
          StopMoving();
        }
      }
    }

    /**
     * A jump frame: advances the progress by LerpSpeed * delta, places the
     * character on the parabola and stops once the progress reaches 1.
     */
    method Jump(delta: real)
      requires Valid()
      modifies this, Character
      ensures Valid()
      ensures TargetPosition == old(TargetPosition) && StartPosition == old(StartPosition)
      ensures IsWalking == old(IsWalking)
      ensures !old(IsJumping) ==> unchanged(this) && unchanged(Character)
      ensures old(IsJumping) ==> JumpFrame(delta)
    {
      if IsJumping {
        Progress := Progress + LerpSpeed * delta;
        var position := JumpPosition(StartPosition, TargetPosition, Progress, JumpHeight);
        Character.Position := position;
        if Progress >= 1.0 {
          if Progress == 1.0 && OnGridVec(TargetPosition) {
            SnapVecNear(position, TargetPosition);
          }
          StopMoving();
        }
      }
    }

    /** Ends the step: both flags cleared, the mode back to WALKING, the character on the grid. */
    method StopMoving()
      modifies this, Character
      ensures Valid() && State() == Idle && Mode == WALKING
      ensures Character.Position == SnapVec(old(Character.Position))
      ensures OnGridVec(Character.Position)
      ensures TargetPosition == old(TargetPosition) && StartPosition == old(StartPosition)
      ensures Progress == old(Progress)
    {
      IsWalking := false;
      IsJumping := false;
      Mode := WALKING;
      SnapPositionToGrid();
    }

    /** Rounds each coordinate of the character to the nearest multiple of GRID_SIZE. */
    method SnapPositionToGrid()
      modifies Character
      ensures Character.Position == SnapVec(old(Character.Position))
      ensures OnGridVec(Character.Position)
      ensures OnGridVec(old(Character.Position)) ==> Character.Position == old(Character.Position)
    {
      var p := Character.Position;
      if OnGridVec(p) {
        SnapCoordOnGrid(p.x);
        SnapCoordOnGrid(p.y);
      }
      Character.Position := Vec(SnapCoord(p.x), SnapCoord(p.y));
    }

    /** Handles a Turn request: only the "turn" animation signal. */
    method Turn() returns (emitted: seq<string>)
      ensures emitted == [TurnSignal]
    {
      emitted := [TurnSignal];
    }

    /**
     * One frame: the walk frame, then the jump frame, then "idle" when the
     * character is at rest and no movement key is held.
     */
    method Process(delta: real, actionPressed: bool) returns (emitted: seq<string>)
      requires Valid()
      modifies this, Character
      ensures Valid()
      ensures TargetPosition == old(TargetPosition) && StartPosition == old(StartPosition)
      ensures old(IsWalking) ==> WalkFrame(delta) && Progress == old(Progress)
      ensures old(IsJumping) ==> JumpFrame(delta)
      ensures old(State()) == Idle ==> unchanged(this) && unchanged(Character)
      ensures emitted == if State() == Idle && !actionPressed then [IdleSignal] else []
    {
      Walk(delta);
      Jump(delta);
      emitted := [];
      if !IsMoving() && !actionPressed {
        emitted := [IdleSignal];
      }
    }
  }

  /**
   * A step right from rest at (0, 0) into a free cell: whatever the space
   * holds elsewhere, nothing at the probe point (24, 8) means the character
   * starts walking towards (16, 0) and asks for the walk animation.
   */
  method StepRightIntoFreeCell(movement: CharacterMovement, space: Vec -> seq<Occupant>)
    returns (emitted: seq<string>)
    requires movement.Valid() && movement.State() == Idle
    requires movement.Character.Position == Zero
    requires space(Vec(24.0, 8.0)) == []
    modifies movement
    ensures movement.Valid()
    ensures emitted == [WalkSignal]
    ensures movement.State() == Walking && movement.TargetPosition == Vec(16.0, 0.0)
  {
    assert ProbePoint(StepTarget(movement.Character.Position, Right)) == Vec(24.0, 8.0);
    emitted := movement.StartMoving(Right, false, space);
  }

  /**
   * The walk frame that ends that step: at GRID_SIZE * 4 pixels per second a
   * quarter of a second covers the whole cell, so the character stops on
   * (16, 0) and is at rest again.
   */
  method WalkOneCell(movement: CharacterMovement)
    requires movement.Valid() && movement.State() == Walking
    requires movement.Character.Position == Zero && movement.TargetPosition == Vec(16.0, 0.0)
    modifies movement, movement.Character
    ensures movement.Valid()
    ensures movement.State() == Idle && movement.Character.Position == Vec(16.0, 0.0)
  {
    MultipleOnGrid(1);
    MultipleOnGrid(0);
    assert MoveToward(Zero, Vec(16.0, 0.0), 0.25 * Grid * 4.0) == Vec(16.0, 0.0);
    movement.Walk(0.25);
  }

  /**
   * A step right from rest at (0, 0) onto a RIGHT ledge at the probe point
   * becomes a jump over it, from (0, 0) to (32, 0), starting at progress 0.
   */
  method JumpOverLedge(movement: CharacterMovement, space: Vec -> seq<Occupant>)
    returns (emitted: seq<string>)
    requires movement.Valid() && movement.State() == Idle
    requires movement.Character.Position == Zero
    requires space(Vec(24.0, 8.0)) == [TileMapLayer(TileData(Some("RIGHT")))]
    modifies movement
    ensures movement.Valid()
    ensures emitted == [WalkSignal]
    ensures movement.State() == Jumping && movement.Progress == 0.0
    ensures movement.StartPosition == Zero && movement.TargetPosition == Vec(32.0, 0.0)
  {
    assert ProbePoint(StepTarget(movement.Character.Position, Right)) == Vec(24.0, 8.0);
    assert TileVerdict(TileData(Some("RIGHT")), Right) == LedgeJump;
    emitted := movement.StartMoving(Right, false, space);
  }
}
