# madmon grid movement and level transitions, in Dafny

This project models the gameplay core of madmon, a Godot C# top-down game
on a 16-pixel tile grid:

- **CharacterMovement** (`movement.dfy`): the per-character step state machine.
  A step request becomes a one-cell walk, or a two-cell parabolic jump when
  the target tile is a ledge facing the step. Every frame advances the walk
  or the jump. On arrival the character is snapped back onto the grid.
- **CharacterAnimation** (`animation.dfy`): picks one of twelve sprite
  animations from an animation signal and the input direction. The sprite
  restarts only when the pick changes, and nothing happens while the
  character moves.
- **PlayerRoamState** (`roam.dfy`): turns key presses into a direction and
  key holds into Walk or Turn requests.
- **StateMachine** (`statemachine.dfy`): switches State children on and off.
  The old state exits before the new one enters, and afterwards exactly the
  current state processes.
- **SceneManager, SceneTrigger and SpawnPoint** (`scenes.dfy`): the level
  transition.
  - `ChangeLevel` is single-flight, guarded by the `IsChanging` flag.
  - Levels come from a cache that grows on a miss.
  - The player is placed at the first spawn point, or one cell past the
    matching scene trigger.
  - The screen fades out and back in around the swap.
  - Spawn points and triggers join their scene-tree groups while they are in
    the tree.
- `geometry.dfy` holds the shared pieces: `Vector2` as exact reals, the grid
  constant, grid rounding, `MoveToward` and `Lerp`.

`ChangeLevel` is an async coroutine. Between two awaits it runs without
interruption. The model therefore keeps one `Transition` record per call,
holding the call's arguments and the await it is parked at. Each
uninterrupted segment of the coroutine is a method, and `Resume` runs the
segment after the current await. The caller picks which parked call resumes
next, as the engine does. The invariant `SceneManager.Valid` holds between
segments. It has two parts:

- The flag is set exactly while one call holds it.
- The scene tree's groups hold exactly the anchors of the level on screen.

Engine services become parameters or fields:

- The physics point query is a function from a point to the colliders there.
- `GD.Load` is a function from a level name to its scene content.
- Key states are per-frame booleans.
- Signals are returned as the list of signals emitted.
- Fades are logged as effects, and the coroutine's phase records the waits.

Four behaviours of the code shape the model:

- **The fade-out happens inside `GetLevel`.** It runs only when a level is on
  screen (scripts/core/SceneManager.cs:60-64). There is no separate
  fade-out step before the level swap.
- **There is no same-tick race between two `ChangeLevel` calls.** The last
  test of `IsChanging` and the write that sets it have no await between them
  (scripts/core/SceneManager.cs:35-40). `SameFrameRequests` proves that the
  second of two same-frame calls waits.
- **A failed placement leaves `IsChanging` set for good.** Both the
  missing-spawn-point and the missing-trigger cases end the call with an
  exception before line 55, so every later call waits forever.
- **A spawn-mode transition instantiates a new player.** It does not move the
  existing one (scripts/core/SceneManager.cs:88-91).

## Model

| member | source | states |
|---|---|---|
| Geometry.RoundHalfEven | scripts/gameplay/characters/CharacterMovement.cs:223-224 | Mathf.Round: the result is within one half of the input, and an exact tie goes to the even neighbour |
| Geometry.RoundHalfEvenUnique | scripts/gameplay/characters/CharacterMovement.cs:223-224 | those two properties determine the rounded value uniquely |
| Geometry.SnapCoord | scripts/gameplay/characters/CharacterMovement.cs:223 | one snapped coordinate is a whole number of cells and at most half a cell from the input |
| Geometry.SnapVec | scripts/gameplay/characters/CharacterMovement.cs:222-225 | both snapped coordinates lie on the grid |
| Geometry.SnapCoordNear | scripts/gameplay/characters/CharacterMovement.cs:220-226 | a value strictly within half a cell of a grid line snaps exactly onto that line |
| Geometry.SnapCoordOnGrid | scripts/gameplay/characters/CharacterMovement.cs:220-226 | snapping leaves a grid-aligned value unchanged |
| Geometry.SnapVecNear | scripts/gameplay/characters/CharacterMovement.cs:220-226 | a point within half a cell of a grid point on both axes snaps onto it |
| Geometry.Dist | scripts/gameplay/characters/CharacterMovement.cs:179 | the distance is never negative and is zero exactly when the two points coincide |
| Geometry.MoveToward | scripts/gameplay/characters/CharacterMovement.cs:177 | a target at most delta away is reached exactly; a step of length zero stays put |
| Geometry.MoveTowardProgress | scripts/gameplay/characters/CharacterMovement.cs:177 | a MoveToward step of length delta shortens the distance to the target by exactly delta, stops at the target and never overshoots |
| Geometry.Lerp | scripts/gameplay/characters/CharacterMovement.cs:192 | weight 0 gives the start point and weight 1 the end point |
| Movement.TileVerdict | scripts/gameplay/characters/CharacterMovement.cs:104-145 | a tile never lets the step through as plain ground; it gives a jump exactly when its LEDGE value is DOWN, LEFT or RIGHT and equals the step direction; an UP ledge, a missing LEDGE value or missing tile data blocks |
| Movement.Occupancy | scripts/gameplay/characters/CharacterMovement.cs:85-101 | no collider means free; the verdict is fixed by the first collider: a scene trigger never blocks, a tile layer applies the tile rule, anything else blocks |
| Movement.FirstColliderDecides | scripts/gameplay/characters/CharacterMovement.cs:85-101 | colliders after the first never change the verdict |
| Movement.ParabolicOffset | scripts/gameplay/characters/CharacterMovement.cs:194 | the lift is 0 at progress 0 and 1, equals JumpHeight at progress 0.5, and stays between 0 and JumpHeight for progress in [0, 1] |
| Movement.ParabolaBounded | scripts/gameplay/characters/CharacterMovement.cs:194 | the parabolic lift stays between 0 and the jump height for progress in [0, 1] |
| Movement.JumpPosition | scripts/gameplay/characters/CharacterMovement.cs:192-196 | the jump starts at the start position, ends at the target, and is JumpHeight above the midpoint half-way |
| Movement.WalkAfterDistance | scripts/gameplay/characters/CharacterMovement.cs:173-184 | after n walk frames of length s the distance to the target is max(0, d - n*s) |
| Movement.WalkReachesTarget | scripts/gameplay/characters/CharacterMovement.cs:173-184 | walk frames that cover the distance end exactly on the target |
| Movement.ArrivalSnapsToTarget | scripts/gameplay/characters/CharacterMovement.cs:179-181 | a walk that stops within one unit of a grid-aligned target is snapped exactly onto it |
| Movement.CharacterMovement.constructor | scripts/gameplay/characters/CharacterMovement.cs:18-42 | the inspector defaults: at rest, WALKING mode, progress 0, target Vector2.Down |
| Movement.CharacterMovement.IsMoving | scripts/gameplay/characters/CharacterMovement.cs:63-66 | moving exactly when the step state is Walking or Jumping |
| Movement.CharacterMovement.GetTileMapLayerCollision | scripts/gameplay/characters/CharacterMovement.cs:104-145 | blocks exactly when the tile rule blocks; sets the mode to JUMPING exactly when the tile is a matching ledge, and leaves it alone otherwise |
| Movement.CharacterMovement.IsTargetOccupied | scripts/gameplay/characters/CharacterMovement.cs:68-102 | queries the target shifted by (+8, +8) and reports occupied exactly when the first collider blocks, promoting the mode on a matching ledge |
| Movement.CharacterMovement.StartMoving | scripts/gameplay/characters/CharacterMovement.cs:147-171 | no change at all during a level transition. Otherwise the one-cell target is always written. A request made while moving or into a blocked cell changes nothing else and emits nothing. Free ground starts a walk. A matching ledge starts a jump from the current position to two cells ahead, at progress 0. An accepted step emits "walk". The step invariant is kept |
| Movement.CharacterMovement.Walk | scripts/gameplay/characters/CharacterMovement.cs:173-184 | while walking, the frame is WalkFrame: the character moves delta*GRID_SIZE*4 towards the target; under one unit away it stops and snaps, landing exactly on a grid-aligned target; otherwise the walk goes on. A character that is not walking is left untouched |
| Movement.CharacterMovement.Jump | scripts/gameplay/characters/CharacterMovement.cs:186-205 | while jumping, the frame is JumpFrame: progress grows by LerpSpeed*delta and the character is put on the parabola; at progress >= 1 the jump stops and snaps, landing on the target when progress is exactly 1. A character that is not jumping is left untouched |
| Movement.CharacterMovement.StopMoving | scripts/gameplay/characters/CharacterMovement.cs:207-213 | both motion flags cleared, mode back to WALKING, the character snapped onto the grid, the step invariant restored |
| Movement.CharacterMovement.SnapPositionToGrid | scripts/gameplay/characters/CharacterMovement.cs:220-226 | the new position is the rounded one, lies on the grid, and equals the old one if that was already on the grid |
| Movement.CharacterMovement.Turn | scripts/gameplay/characters/CharacterMovement.cs:215-218 | emits exactly "turn" |
| Movement.CharacterMovement.Process | scripts/gameplay/characters/CharacterMovement.cs:52-61 | a walking character makes exactly the walk frame (WalkFrame, the same outcome Walk promises) and a jumping one exactly the jump frame (JumpFrame); the target and start position do not change; emits "idle" exactly when the character ends at rest with no movement key held; a character at rest is left untouched |
| Movement.StepRightIntoFreeCell | scripts/gameplay/characters/CharacterMovement.cs:147-171 | from rest at (0, 0), with nothing at the probe point (24, 8), a step right emits "walk" and starts a walk towards (16, 0) |
| Movement.WalkOneCell | scripts/gameplay/characters/CharacterMovement.cs:173-184 | walking from (0, 0) towards (16, 0), one quarter-second frame ends the walk at rest exactly on (16, 0) |
| Movement.JumpOverLedge | scripts/gameplay/characters/CharacterMovement.cs:135-165 | from rest at (0, 0), with a RIGHT ledge tile at the probe point (24, 8), a step right emits "walk" and becomes a jump from (0, 0) to (32, 0) at progress 0 |
| Animation.Select | scripts/gameplay/characters/CharacterAnimation.cs:33-89 | a pick exists exactly for walk/turn/idle and a cardinal direction, and its name is "<kind>_<direction>" |
| Animation.SelectInjective | scripts/gameplay/characters/CharacterAnimation.cs:33-89 | distinct (kind, direction) requests pick distinct animations |
| Animation.SelectSurjective | scripts/gameplay/characters/CharacterAnimation.cs:33-89 | every one of the twelve animations is picked by some request |
| Animation.AfterPlayIdempotent | scripts/gameplay/characters/CharacterAnimation.cs:28-94 | repeating a request leaves the stored animation where the first one put it |
| Animation.CharacterAnimation.constructor | scripts/gameplay/characters/CharacterAnimation.cs:17 | the stored animation starts as idle_down, nothing played |
| Animation.CharacterAnimation.PlayAnimation | scripts/gameplay/characters/CharacterAnimation.cs:26-95 | nothing changes while moving; otherwise the stored animation becomes the pick (or stays on an unknown kind or non-cardinal direction) and Play runs exactly when it changed |
| Animation.PlayTwice | scripts/gameplay/characters/CharacterAnimation.cs:91-94 | the same request twice in a row plays at most once |
| Roam.PlayerInput.constructor | scripts/gameplay/characters/PlayerInput.cs:10-13 | direction and target start at zero, hold time at 0, with the given threshold |
| Roam.PressedDirection | scripts/gameplay/characters/states/PlayerRoamState.cs:22-44 | a direction exactly when some key was just pressed, always cardinal, with priority up > down > left > right |
| Roam.OneCellOffset | scripts/gameplay/characters/states/PlayerRoamState.cs:27-42 | each literal offset is the chosen direction times GRID_SIZE |
| Roam.HoldFrame | scripts/gameplay/characters/states/PlayerRoamState.cs:51-73 | a release resets the hold time (to the frame time when the key is pressed again in the same frame), and emits Walk when the hold time strictly exceeded the threshold, Turn otherwise. A held key adds the frame time and emits Walk once the new hold time exceeds the threshold. The release is handled before the press. Nothing happens with neither key state. The hold time stays non-negative |
| Roam.HoldAccumulates | scripts/gameplay/characters/states/PlayerRoamState.cs:65-67 | holding a key accumulates exactly the sum of the frame times |
| Roam.TapTurnsHoldWalks | scripts/gameplay/characters/states/PlayerRoamState.cs:51-73 | a press held over frames and then released asks for a walk exactly when the frames add up to more than the threshold, and for a turn otherwise |
| Roam.PlayerRoamState.GetInputDirection | scripts/gameplay/characters/states/PlayerRoamState.cs:22-44 | the recorded direction is the pressed one and the recorded target its one-cell offset; nothing changes without a press |
| Roam.PlayerRoamState.GetInput | scripts/gameplay/characters/states/PlayerRoamState.cs:46-74 | nothing happens while moving; otherwise the new hold time and the signals are those of HoldFrame |
| Roam.PlayerRoamState.Process | scripts/gameplay/characters/states/PlayerRoamState.cs:16-20 | a pressed key sets the direction and a target one cell along it; with no key pressed both stay as they were. While moving, no signal is emitted and the hold time is kept; otherwise the hold time and signals are those of HoldFrame |
| StateMachines.ChangeCalls | scripts/utilities/StateMachine.cs:33-35 | an exit of the old state when there is one, an enter of the new state when there is one, exits before enters |
| StateMachines.StateMachine.Ready | scripts/utilities/StateMachine.cs:14-24 | every State child gets the customer as owner and stops processing; other children are untouched; no State child is active |
| StateMachines.StateMachine.ChangeState | scripts/utilities/StateMachine.cs:31-44 | the exit and enter calls are made in that order. Afterwards a State child processes exactly when it is the new state, so the active set is the new state alone, or empty for null. Owners and non-State children are untouched |
| StateMachines.StartPlayer | scripts/gameplay/characters/Player.cs:11-15 | the player becomes the customer and Roam is the only active state |
| Scenes.Without | scripts/gameplay/levels/SceneTrigger.cs:47-50 | RemoveFromGroup: the node is gone, every other member stays, and a non-member leaves the group as it was |
| Scenes.WithoutAppended | scripts/gameplay/levels/SceneTrigger.cs:42-50 | leaving a group right after joining it restores the group |
| Scenes.SpawnPoint.EnterTree | scripts/gameplay/levels/SpawnPoint.cs:8-11 | the spawn point joins SPAWNPOINTS at the end, or stays where it is if already a member |
| Scenes.SpawnPoint.ExitTree | scripts/gameplay/levels/SpawnPoint.cs:13-16 | the spawn point leaves SPAWNPOINTS |
| Scenes.SceneTrigger.EnterTree | scripts/gameplay/levels/SceneTrigger.cs:42-45 | the trigger joins SCENETRIGGERS at the end, or stays where it is if already a member |
| Scenes.SceneTrigger.ExitTree | scripts/gameplay/levels/SceneTrigger.cs:47-50 | the trigger leaves SCENETRIGGERS |
| Scenes.SceneTrigger.OnBodyEntered | scripts/gameplay/levels/SceneTrigger.cs:31-40 | a body not named "Player" changes nothing. The player's body makes a ChangeLevel call to the target level and trigger, with spawn false, with ChangeLevel's full outcome (Requested). The call is appended after the earlier ones. If the flag was held, the call waits and nothing else changes. Otherwise it takes the flag. With a level on screen it starts the fade-out and nothing else changes, so nobody moves. With none it swaps the level in and places the player as Place does. A locked trigger adds only the notice. The manager invariant is kept |
| Scenes.Instantiate | scripts/core/SceneManager.cs:74 | a new level with newly allocated, distinct spawn points and triggers, one per entry of the scene content, named as requested |
| Scenes.LevelIndex | scripts/core/SceneManager.cs:66 | FirstOrDefault: the first cached level with that name, or none when no cached level has it |
| Scenes.TriggerIndex | scripts/core/SceneManager.cs:101 | FirstOrDefault: the first trigger in the group carrying that index, or none when no trigger carries it |
| Scenes.SpawnPlacement | scripts/core/SceneManager.cs:82-91 | fails exactly when the group is empty, otherwise the first spawn point's position |
| Scenes.SwitchPlacement | scripts/core/SceneManager.cs:96-104 | fails exactly for an empty group, or for a group without that index, and with no other error; so a non-empty group with a matching trigger always succeeds, one cell past the first matching trigger in its entry direction |
| Scenes.SceneManager.constructor | scripts/core/SceneManager.cs:25-31 | the flag clear, no level on screen, the exported cache, the invariant established |
| Scenes.SceneManager.AddChild | scripts/core/SceneManager.cs:68-77 | the groups become exactly the level's anchors, and the level is logged as added |
| Scenes.SceneManager.RemoveChild | scripts/core/SceneManager.cs:63 | the groups become empty, and the level is logged as removed |
| Scenes.SceneManager.SwapLevel | scripts/core/SceneManager.cs:60-77 | The level on screen, if any, leaves. On a cache hit the first cached level of that name comes on screen and the cache is unchanged. On a miss a new instance is appended to the cache once and comes on screen. The scene invariant is kept |
| Scenes.SceneManager.Spawn | scripts/core/SceneManager.cs:80-92 | with no spawn point it fails and keeps the player; otherwise a new "Player" node at the first spawn point |
| Scenes.SceneManager.Switch | scripts/core/SceneManager.cs:94-105 | it fails with the group's error and moves nobody, or fails when there is no player; otherwise the player goes to the SwitchPlacement position |
| Scenes.SceneManager.Place | scripts/core/SceneManager.cs:44-51 | exactly one placement per transition; it succeeds exactly when Placement is Ok, and the player then stands there. In spawn mode a success installs a new node named "Player" and leaves the previous player where it was. In switch mode the player stays the same node. On failure nobody is created or moved |
| Scenes.SceneManager.PlaceAndFadeIn | scripts/core/SceneManager.cs:44-53 | after placing, a successful call starts the fade-in and waits for it; a failed call ends faulted with the flag still held. Which player is placed is as for Place (Placed) |
| Scenes.SceneManager.SwapAndPlace | scripts/core/SceneManager.cs:42-53 | the level swap, then the placement, then the fade-in start on success; the effect log is the old level removed, the new one added, then the fade-in; the invariant is kept and the flag stays held; a spawn places a new player, a switch moves the existing one, a failure moves nobody (Arrived) |
| Scenes.SceneManager.TakeFlag | scripts/core/SceneManager.cs:40-42 | sets the flag; with a level on screen it starts the fade-out and waits, changing nothing else; without one it goes straight on to the swap and placement |
| Scenes.SceneManager.ReleaseFlag | scripts/core/SceneManager.cs:53-55 | after the fade-in, the flag is cleared and the call is complete |
| Scenes.SceneManager.Resume | scripts/core/SceneManager.cs:35-55 | A waiting call goes on waiting while the flag is held. Otherwise it takes the flag before its next suspension. A call past its fade-out swaps the level and places the player as Place does. A call past its fade-in clears the flag. The flag is cleared only after a fade-in, and the invariant is kept |
| Scenes.SceneManager.ChangeLevel | scripts/core/SceneManager.cs:33-56 | The outcome is stated once, by Requested. The call is appended with its arguments. With the flag held it waits and changes nothing else. Otherwise it takes the flag at once and runs to its first await: the fade-out when a level is on screen, the fade-in (or a fault) when none is, placing the player as Place does. The invariant is kept |
| Scenes.SameFrameRequests | scripts/core/SceneManager.cs:35-40 | of two calls in the same frame, the first holds the flag and the second waits |

## Left out

- scripts/core/Logger.cs is not part of this model: all logging, including the locked-door notice, which appears only as a boolean result.
- GameManager and PlayerCamera are viewport wiring. Adding the player to the viewport is modelled only as the assignment of the manager's `Player` field. The camera limits are carried on each level but nothing reads them.
- Physics: `IntersectPoint`, `LocalToMap` and `GetCellTileData` are an oracle. It maps the probed point to the colliders there, each carrying the tile content at that point when it is a tile layer.
- Tweens: `FadeOut` and `FadeIn` are logged as effects and the waits become phases. The opacity values and the 0.25 s duration are not modelled.
- Scheduling: which parked `ChangeLevel` call the engine resumes next is the caller's choice. The order in which Godot resumes frame waiters is not modelled, so the model makes no claim that parked calls run in call order.
- `GD.Load` is a function from level name to scene content. The loaded level is named as requested, so a scene file exporting a different `LevelName` is not modelled.
- The old player left in the viewport by a second spawn-mode transition is not tracked. Only `GameManager.Player` is.
- Group order: `GetNodesInGroup` returns nodes in scene-tree order. The model keeps each group in the order its members joined. The first spawn point and the first matching trigger are picked from that order. In every modelled flow a level's anchors join together, in the level's own order, so the two orders agree. A tree whose anchors join in any other order is not modelled.
- Key state (`Input.IsActionJustPressed` and the `Modules` helpers, which are not shown) enters as booleans per frame.
- The signal wiring in the `_Ready` methods is replaced by direct calls. The step direction passed to `StartMoving` stands for `CharacterInput.Direction`, and the `isChanging` argument for `SceneManager.IsChanging`.
- Floating point: positions, deltas, progress and hold times are exact reals. The `(float)` casts, float rounding in `MoveToward` and `Lerp`, and the float constant 0.2f of `HoldThreshold` are not modelled.
- Geometry.MoveTowardProgress: the distance is measured as |dx| + |dy| instead of `DistanceTo`'s Euclidean length. Input directions are always cardinal, so every step displacement is axis-aligned and the two agree. A diagonal displacement would not be covered.
- `StateMachine.GetCurrentState` is not modelled. It only reads the current state's name, and it dereferences null before any state is set.
- `State.EnterState` and `State.ExitState` only log; they appear as the recorded calls.
- The failed placement's exception is not propagated to any caller. The call ends in the `Faulted` phase with `IsChanging` still set, which is how the source leaves it.
