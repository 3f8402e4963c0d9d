// Level transitions: SceneManager's single-flight ChangeLevel, its level
// cache and the placement of the player, together with the scene anchors
// (spawn points and scene triggers) that register themselves in the scene
// tree's groups while they are in the tree.
//
// ChangeLevel is an async coroutine. Between two awaits it runs without
// interruption, so it is modelled as a record per call (a Transition) and one
// method per uninterrupted segment; Resume runs the segment that follows the
// await the call is suspended at. Which suspended call resumes next is the
// caller's choice, as it is the engine's.

module Scenes {
  import opened Geometry

  /** Enums.LevelName. */
  datatype LevelName =
    | small_town
    | small_town_greens_house
    | small_town_purples_house
    | small_town_pokemon_center
    | small_town_cave

  datatype Result<T, E> = Ok(value: T) | Err(error: E)

  predicate Distinct<T(==)>(s: seq<T>)
  {
    forall i, j :: 0 <= i < j < |s| ==> s[i] != s[j]
  }

  /** s with every occurrence of x removed (RemoveFromGroup). */
  function Without<T(==)>(s: seq<T>, x: T): (r: seq<T>)
    ensures x !in r
    ensures forall i :: 0 <= i < |r| ==> r[i] in s
    ensures forall i :: 0 <= i < |s| && s[i] != x ==> s[i] in r
    ensures x !in s ==> r == s
  {
    if s == [] then []
    else if s[0] == x then Without(s[1..], x)
    else [s[0]] + Without(s[1..], x)
  }

  /** Leaving a group right after joining it restores the group. */
  lemma {:induction false} WithoutAppended<T>(s: seq<T>, x: T)
    requires x !in s
    ensures Without(s + [x], x) == s
  {
    if s == [] {
      assert [x][1..] == [];
    } else {
      assert (s + [x])[1..] == s[1..] + [x];
      WithoutAppended(s[1..], x);
      assert [s[0]] + s[1..] == s;
    }
  }

  /** The scene tree's SPAWNPOINTS and SCENETRIGGERS groups, in insertion order. */
  class SceneTree {
    var SpawnPoints: seq<SpawnPoint>
    var SceneTriggers: seq<SceneTrigger>

    constructor ()
      ensures SpawnPoints == [] && SceneTriggers == []
    {
      SpawnPoints := [];
      SceneTriggers := [];
    }
  }

  class SpawnPoint {
    const Position: Vec

    constructor (position: Vec)
      ensures Position == position
    {
      Position := position;
    }

    /** _EnterTree: joins SPAWNPOINTS (a node already in the group stays where it is). */
    method EnterTree(tree: SceneTree)
      modifies tree`SpawnPoints
      ensures this in tree.SpawnPoints
      ensures tree.SpawnPoints == if this in old(tree.SpawnPoints) then old(tree.SpawnPoints) else old(tree.SpawnPoints) + [this]
    {
      if this !in tree.SpawnPoints {
        tree.SpawnPoints := tree.SpawnPoints + [this];
      }
    }

    /** _ExitTree: leaves SPAWNPOINTS. */
    method ExitTree(tree: SceneTree)
      modifies tree`SpawnPoints
      ensures this !in tree.SpawnPoints
      ensures tree.SpawnPoints == Without(old(tree.SpawnPoints), this)
    {
      tree.SpawnPoints := Without(tree.SpawnPoints, this);
    }
  }

  /** The exported values of a SceneTrigger in a level scene. */
  datatype TriggerSpec = TriggerSpec(
    position: Vec,
    targetLevelName: LevelName,
    targetLevelTrigger: int,
    currentLevelTrigger: int,
    entryDirection: Vec,
    locked: bool)

  class SceneTrigger {
    const Position: Vec
    const TargetLevelName: LevelName
    const TargetLevelTrigger: int
    const CurrentLevelTrigger: int
    const EntryDirection: Vec
    const Locked: bool

    constructor (spec: TriggerSpec)
      ensures Matches(this, spec)
    {
      Position := spec.position;
      TargetLevelName := spec.targetLevelName;
      TargetLevelTrigger := spec.targetLevelTrigger;
      CurrentLevelTrigger := spec.currentLevelTrigger;
      EntryDirection := spec.entryDirection;
      Locked := spec.locked;
    }

    /** _EnterTree: joins SCENETRIGGERS (a node already in the group stays where it is). */
    method EnterTree(tree: SceneTree)
      modifies tree`SceneTriggers
      ensures this in tree.SceneTriggers
      ensures tree.SceneTriggers == if this in old(tree.SceneTriggers) then old(tree.SceneTriggers) else old(tree.SceneTriggers) + [this]
    {
      if this !in tree.SceneTriggers {
        tree.SceneTriggers := tree.SceneTriggers + [this];
      }
    }

    /** _ExitTree: leaves SCENETRIGGERS. */
    method ExitTree(tree: SceneTree)
      modifies tree`SceneTriggers
      ensures this !in tree.SceneTriggers
      ensures tree.SceneTriggers == Without(old(tree.SceneTriggers), this)
    {
      tree.SceneTriggers := Without(tree.SceneTriggers, this);
    }

    /**
     * OnBodyEntered: only the body named "Player" starts a transition, to the
     * target level and trigger, never in spawn mode. A locked trigger only
     * adds the notice; the transition is requested all the same.
     */
    method OnBodyEntered(body: Node2D, manager: SceneManager) returns (lockedNotice: bool)
      requires manager.Valid()
      modifies manager, manager.Tree, manager.Player
      ensures manager.Valid()
      ensures body.Name != "Player" ==>
        !lockedNotice && unchanged(manager, manager.Tree) && (manager.Player != null ==> unchanged(manager.Player))
      ensures body.Name == "Player" ==> lockedNotice == Locked
      ensures body.Name == "Player" ==> manager.Requested(Request(TargetLevelName, TargetLevelTrigger, false), old(manager.Player))
    {
      if body.Name != "Player" {
        return false;
      }
      lockedNotice := Locked;
      var _ := manager.ChangeLevel(TargetLevelName, TargetLevelTrigger, false);
    }
  }

  ghost predicate Matches(t: SceneTrigger, spec: TriggerSpec)
  {
    t.Position == spec.position && t.TargetLevelName == spec.targetLevelName
    && t.TargetLevelTrigger == spec.targetLevelTrigger && t.CurrentLevelTrigger == spec.currentLevelTrigger
    && t.EntryDirection == spec.entryDirection && t.Locked == spec.locked
  }

  /** A Level scene: its name, camera limits and the anchors it contains. */
  class Level {
    const LevelName: LevelName
    const Top: int
    const Bottom: int
    const Left: int
    const Right: int
    const SpawnPoints: seq<SpawnPoint>
    const SceneTriggers: seq<SceneTrigger>

    constructor (name: LevelName, top: int, bottom: int, left: int, right: int,
                 spawnPoints: seq<SpawnPoint>, sceneTriggers: seq<SceneTrigger>)
      ensures LevelName == name && Top == top && Bottom == bottom && Left == left && Right == right
      ensures SpawnPoints == spawnPoints && SceneTriggers == sceneTriggers
    {
      LevelName := name;
      Top := top;
      Bottom := bottom;
      Left := left;
      Right := right;
      SpawnPoints := spawnPoints;
      SceneTriggers := sceneTriggers;
    }

    /** Each anchor is a node of its own. */
    predicate WellFormed()
    {
      Distinct(SpawnPoints) && Distinct(SceneTriggers)
    }
  }

  /** The content of res://scenes/levels/<name>.tscn. */
  datatype LevelAsset = LevelAsset(
    top: int, bottom: int, left: int, right: int,
    spawnPoints: seq<Vec>,
    sceneTriggers: seq<TriggerSpec>)

  /** level is an instance of asset, named name. */
  ghost predicate Built(level: Level, name: LevelName, asset: LevelAsset)
  {
    level.LevelName == name
    && level.Top == asset.top && level.Bottom == asset.bottom
    && level.Left == asset.left && level.Right == asset.right
    && |level.SpawnPoints| == |asset.spawnPoints|
    && (forall j :: 0 <= j < |asset.spawnPoints| ==> level.SpawnPoints[j].Position == asset.spawnPoints[j])
    && |level.SceneTriggers| == |asset.sceneTriggers|
    && (forall j :: 0 <= j < |asset.sceneTriggers| ==> Matches(level.SceneTriggers[j], asset.sceneTriggers[j]))
  }

  /** PackedScene.Instantiate: a new level with new anchors, one per entry of the asset. */
  method Instantiate(name: LevelName, asset: LevelAsset) returns (level: Level)
    ensures fresh(level) && level.WellFormed() && Built(level, name, asset)
    ensures forall j :: 0 <= j < |level.SpawnPoints| ==> fresh(level.SpawnPoints[j])
    ensures forall j :: 0 <= j < |level.SceneTriggers| ==> fresh(level.SceneTriggers[j])
  {
    var spawnPoints: seq<SpawnPoint> := [];
    for i := 0 to |asset.spawnPoints|
      invariant |spawnPoints| == i && Distinct(spawnPoints)
      invariant forall j :: 0 <= j < i ==> fresh(spawnPoints[j])
      invariant forall j :: 0 <= j < i ==> spawnPoints[j].Position == asset.spawnPoints[j]
    {
      var point := new SpawnPoint(asset.spawnPoints[i]);
      spawnPoints := spawnPoints + [point];
    }
    var triggers: seq<SceneTrigger> := [];
    for i := 0 to |asset.sceneTriggers|
      invariant |triggers| == i && Distinct(triggers)
      invariant forall j :: 0 <= j < i ==> fresh(triggers[j])
      invariant forall j :: 0 <= j < i ==> Matches(triggers[j], asset.sceneTriggers[j])
    {
      var trigger := new SceneTrigger(asset.sceneTriggers[i]);
      triggers := triggers + [trigger];
    }
    level := new Level(name, asset.top, asset.bottom, asset.left, asset.right, spawnPoints, triggers);
  }

  /** The first cached level with the given name (FirstOrDefault on AllLevels). */
  function LevelIndex(levels: seq<Level>, name: LevelName): (k: Option<nat>)
    ensures k.Some? ==> k.value < |levels| && levels[k.value].LevelName == name
    ensures k.Some? ==> forall j :: 0 <= j < k.value ==> levels[j].LevelName != name
    ensures k.None? ==> forall j :: 0 <= j < |levels| ==> levels[j].LevelName != name
  {
    if levels == [] then None
    else if levels[0].LevelName == name then Some(0)
    else match LevelIndex(levels[1..], name)
      case None => None
      case Some(k) => Some(k + 1)
  }

  /** The first trigger in the group whose CurrentLevelTrigger is trigger (FirstOrDefault on the group). */
  function TriggerIndex(triggers: seq<SceneTrigger>, trigger: int): (k: Option<nat>)
    ensures k.Some? ==> k.value < |triggers| && triggers[k.value].CurrentLevelTrigger == trigger
    ensures k.Some? ==> forall j :: 0 <= j < k.value ==> triggers[j].CurrentLevelTrigger != trigger
    ensures k.None? ==> forall j :: 0 <= j < |triggers| ==> triggers[j].CurrentLevelTrigger != trigger
  {
    if triggers == [] then None
    else if triggers[0].CurrentLevelTrigger == trigger then Some(0)
    else match TriggerIndex(triggers[1..], trigger)
      case None => None
      case Some(k) => Some(k + 1)
  }

  /** The exceptions Spawn and Switch throw, and the missing player Switch dereferences. */
  datatype PlacementError =
    | MissingSpawnPoints
    | MissingSceneTriggers
    | MissingSceneTrigger(trigger: int)
    | MissingPlayer

  /** Where Spawn puts the player: at the first spawn point of the group. */
  function SpawnPlacement(spawnPoints: seq<SpawnPoint>): (r: Result<Vec, PlacementError>)
    ensures r.Err? <==> spawnPoints == []
    ensures r.Err? ==> r.error == MissingSpawnPoints
    ensures r.Ok? ==> r.value == spawnPoints[0].Position
  {
    if |spawnPoints| <= 0 then Err(MissingSpawnPoints) else Ok(spawnPoints[0].Position)
  }

  /** Trigger j is the first of the group carrying index trigger. */
  predicate FirstMatchAt(triggers: seq<SceneTrigger>, trigger: int, j: int)
  {
    0 <= j < |triggers| && triggers[j].CurrentLevelTrigger == trigger
    && forall i :: 0 <= i < j ==> triggers[i].CurrentLevelTrigger != trigger
  }

  /**
   * Where Switch puts the player: one cell past the first trigger of the
   * group carrying the requested index, in that trigger's entry direction.
   */
  function SwitchPlacement(triggers: seq<SceneTrigger>, trigger: int): (r: Result<Vec, PlacementError>)
    ensures r == Err(MissingSceneTriggers) <==> triggers == []
    ensures r == Err(MissingSceneTrigger(trigger)) <==>
      triggers != [] && forall j :: 0 <= j < |triggers| ==> triggers[j].CurrentLevelTrigger != trigger
    ensures r.Err? ==> r.error == MissingSceneTriggers || r.error == MissingSceneTrigger(trigger)
    ensures r.Ok? ==>
      exists j :: FirstMatchAt(triggers, trigger, j) && r.value == triggers[j].Position.Plus(triggers[j].EntryDirection.Scale(Grid))
  {
    if |triggers| <= 0 then Err(MissingSceneTriggers)
    else match TriggerIndex(triggers, trigger)
      case None => Err(MissingSceneTrigger(trigger))
      case Some(k) => Ok(triggers[k].Position.Plus(triggers[k].EntryDirection.Scale(Grid)))
  }

  /** The arguments of one ChangeLevel call. */
  datatype Request = Request(levelName: LevelName, trigger: int, spawn: bool)

  /** Where a ChangeLevel call is. */
  datatype Phase =
    | Waiting          // in the while (IsChanging) loop, awaiting the next frame
    | AwaitingFadeOut  // in GetLevel, awaiting the fade-out tween
    | AwaitingFadeIn   // awaiting the fade-in tween
    | Completed        // IsChanging cleared
    | Faulted(error: PlacementError)  // Spawn or Switch threw; the call ended there
  {
    /** The call has set IsChanging and not cleared it. */
    predicate Holding() { AwaitingFadeOut? || AwaitingFadeIn? || Faulted? }
    /** The call is parked at an await. */
    predicate Suspended() { Waiting? || AwaitingFadeOut? || AwaitingFadeIn? }
  }

  datatype Transition = Transition(request: Request, phase: Phase)

  /** What a transition does to the screen and the viewport, in order. */
  datatype Effect =
    | FadeOutStarted
    | Removed(level: Level)
    | Added(level: Level)
    | FadeInStarted

  class SceneManager {
    var IsChanging: bool
    var CurrentLevel: Level?
    var AllLevels: seq<Level>
    /** GameManager.Player. */
    var Player: Node2D?
    /** Every ChangeLevel call made so far, oldest first. */
    var Transitions: seq<Transition>
    var Effects: seq<Effect>
    const Tree: SceneTree
    /** GD.Load of a level scene. */
    const Assets: LevelName -> LevelAsset

    /**
     * The cache holds well-formed levels, the current level is one of them,
     * and the tree's groups hold exactly the current level's anchors.
     */
    ghost predicate SceneValid()
      reads this`AllLevels, this`CurrentLevel, Tree
    {
      (forall k :: 0 <= k < |AllLevels| ==> AllLevels[k].WellFormed())
      && (CurrentLevel != null ==> CurrentLevel in AllLevels)
      && Tree.SpawnPoints == (if CurrentLevel == null then [] else CurrentLevel.SpawnPoints)
      && Tree.SceneTriggers == (if CurrentLevel == null then [] else CurrentLevel.SceneTriggers)
    }

    /**
     * Single flight: IsChanging is set exactly while one call holds it, and
     * a call waiting for its fade-out has a level to fade from.
     */
    ghost predicate FlagValid()
      reads this`IsChanging, this`Transitions, this`CurrentLevel
    {
      (IsChanging <==> exists k :: 0 <= k < |Transitions| && Transitions[k].phase.Holding())
      && (forall k, l ::
            0 <= k < |Transitions| && 0 <= l < |Transitions|
            && Transitions[k].phase.Holding() && Transitions[l].phase.Holding()
            ==> k == l)
      && (forall k :: 0 <= k < |Transitions| && Transitions[k].phase.AwaitingFadeOut? ==> CurrentLevel != null)
    }

    ghost predicate Valid()
      reads this`AllLevels, this`CurrentLevel, this`IsChanging, this`Transitions, Tree
    {
      SceneValid() && FlagValid()
    }

    /** IsChanging is set and held by call i alone. */
    ghost predicate HeldBy(i: nat)
      reads this`IsChanging, this`Transitions
    {
      i < |Transitions| && IsChanging
      && forall k :: 0 <= k < |Transitions| && k != i ==> !Transitions[k].phase.Holding()
    }

    /** Where the player goes for request r, given the level now in the tree. */
    ghost function Placement(r: Request): Result<Vec, PlacementError>
      reads this`Player, Tree
    {
      if r.spawn then SpawnPlacement(Tree.SpawnPoints)
      else match SwitchPlacement(Tree.SceneTriggers, r.trigger)
        case Err(e) => Err(e)
        case Ok(p) => if Player == null then Err(MissingPlayer) else Ok(p)
    }

    /** The level for name is current: the cached one, or a new instance appended to the cache. */
    ghost predicate SwappedIn(levels: seq<Level>, name: LevelName)
      reads this`CurrentLevel, this`AllLevels
    {
      CurrentLevel != null && CurrentLevel.LevelName == name
      && (LevelIndex(levels, name).Some? ==>
            CurrentLevel == levels[LevelIndex(levels, name).value] && AllLevels == levels)
      && (LevelIndex(levels, name).None? ==>
            AllLevels == levels + [CurrentLevel] && Built(CurrentLevel, name, Assets(name)))
    }

    /**
     * The effect log after the segment from the level swap to the start of
     * the fade-in: the previous level leaves, the current one enters, and the
     * fade-in starts only when the player was placed.
     */
    static function ArrivalEffects(log: seq<Effect>, previous: Level?, current: Level, placed: bool): seq<Effect>
    {
      log + (if previous != null then [Removed(previous)] else [])
      + [Added(current)]
      + (if placed then [FadeInStarted] else [])
    }

    /**
     * Call i has placed the player and waits for the fade-in, or failed to
     * place it and ended with the placement's error. A spawn places a new
     * "Player" node; a switch moves the existing player; a failure places
     * nobody; and the previous player, given as previous, moves only in a
     * successful switch.
     */
    twostate predicate Placed(i: nat, previous: Node2D?)
      reads this`Transitions, this`Player, Tree, Player, previous
    {
      i < |Transitions|
      && var r := Transitions[i].request;
      Transitions[i].phase == (if Placement(r).Ok? then AwaitingFadeIn else Faulted(Placement(r).error))
      && (Placement(r).Ok? ==> Player != null && Player.Position == Placement(r).value)
      && (r.spawn && Placement(r).Ok? ==> fresh(Player) && Player.Name == "Player")
      && (!r.spawn || Placement(r).Err? ==> Player == previous)
      && (previous != null && (r.spawn || Placement(r).Err?) ==> previous.Position == old(previous.Position))
    }

    /**
     * Call i has swapped in the level for its name, given the cache levels and
     * the player previous from before the swap, and has placed the player or
     * failed to place it.
     */
    twostate predicate Arrived(i: nat, levels: seq<Level>, previous: Node2D?)
      reads this`Transitions, this`CurrentLevel, this`AllLevels, this`Player, Tree, Player, previous
    {
      i < |Transitions| && SwappedIn(levels, Transitions[i].request.levelName) && Placed(i, previous)
    }

    /** _Ready, with the cache as exported. */
    constructor (allLevels: seq<Level>, assets: LevelName -> LevelAsset)
      requires forall k :: 0 <= k < |allLevels| ==> allLevels[k].WellFormed()
      ensures Valid() && fresh(Tree)
      ensures !IsChanging && CurrentLevel == null && AllLevels == allLevels && Player == null
      ensures Transitions == [] && Effects == [] && Assets == assets
    {
      IsChanging := false;
      CurrentLevel := null;
      AllLevels := allLevels;
      Player := null;
      Transitions := [];
      Effects := [];
      Tree := new SceneTree();
      Assets := assets;
    }

    /** Viewport AddChild: every anchor of the level enters the tree. */
    method AddChild(level: Level)
      requires level.WellFormed()
      requires Tree.SpawnPoints == [] && Tree.SceneTriggers == []
      modifies this`Effects, Tree
      ensures Tree.SpawnPoints == level.SpawnPoints && Tree.SceneTriggers == level.SceneTriggers
      ensures Effects == old(Effects) + [Added(level)]
    {
      for i := 0 to |level.SpawnPoints|
        invariant Tree.SpawnPoints == level.SpawnPoints[..i] && Tree.SceneTriggers == []
        invariant Effects == old(Effects)
      {
        assert level.SpawnPoints[i] !in level.SpawnPoints[..i];
        level.SpawnPoints[i].EnterTree(Tree);
        assert level.SpawnPoints[..i] + [level.SpawnPoints[i]] == level.SpawnPoints[..i + 1];
      }
      for i := 0 to |level.SceneTriggers|
        invariant Tree.SpawnPoints == level.SpawnPoints && Tree.SceneTriggers == level.SceneTriggers[..i]
        invariant Effects == old(Effects)
      {
        assert level.SceneTriggers[i] !in level.SceneTriggers[..i];
        level.SceneTriggers[i].EnterTree(Tree);
        assert level.SceneTriggers[..i] + [level.SceneTriggers[i]] == level.SceneTriggers[..i + 1];
      }
      Effects := Effects + [Added(level)];
    }

    /** Viewport RemoveChild: every anchor of the level exits the tree. */
    method RemoveChild(level: Level)
      requires level.WellFormed()
      requires Tree.SpawnPoints == level.SpawnPoints && Tree.SceneTriggers == level.SceneTriggers
      modifies this`Effects, Tree
      ensures Tree.SpawnPoints == [] && Tree.SceneTriggers == []
      ensures Effects == old(Effects) + [Removed(level)]
    {
      for i := 0 to |level.SpawnPoints|
        invariant Tree.SpawnPoints == level.SpawnPoints[i..] && Tree.SceneTriggers == level.SceneTriggers
        invariant Effects == old(Effects)
      {
        var rest := level.SpawnPoints[i..];
        assert rest[0] == level.SpawnPoints[i] && rest[1..] == level.SpawnPoints[i + 1..];
        assert level.SpawnPoints[i] !in rest[1..];
        level.SpawnPoints[i].ExitTree(Tree);
      }
      for i := 0 to |level.SceneTriggers|
        invariant Tree.SpawnPoints == [] && Tree.SceneTriggers == level.SceneTriggers[i..]
        invariant Effects == old(Effects)
      {
        var rest := level.SceneTriggers[i..];
        assert rest[0] == level.SceneTriggers[i] && rest[1..] == level.SceneTriggers[i + 1..];
        assert level.SceneTriggers[i] !in rest[1..];
        level.SceneTriggers[i].ExitTree(Tree);
      }
      Effects := Effects + [Removed(level)];
    }

    /**
     * GetLevel after its fade-out: the current level leaves the viewport,
     * then the first cached level of that name, or a new instance appended
     * to the cache, becomes current and enters the viewport.
     */
    method SwapLevel(levelName: LevelName)
      requires SceneValid()
      modifies this`CurrentLevel, this`AllLevels, this`Effects, Tree
      ensures SceneValid()
      ensures SwappedIn(old(AllLevels), levelName)
      ensures Effects == old(Effects) + (if old(CurrentLevel) != null then [Removed(old(CurrentLevel))] else []) + [Added(CurrentLevel)]
    {
      if CurrentLevel != null {
        RemoveChild(CurrentLevel);
      }
      var k := LevelIndex(AllLevels, levelName);
      if k.Some? {
        CurrentLevel := AllLevels[k.value];
        AddChild(CurrentLevel);
      } else {
        var level := Instantiate(levelName, Assets(levelName));
        CurrentLevel := level;
        AllLevels := AllLevels + [level];
        AddChild(level);
      }
    }

    /** Spawn: a new player, added to the game, at the first spawn point. */
    method Spawn() returns (error: Option<PlacementError>)
      modifies this`Player
      ensures SpawnPlacement(Tree.SpawnPoints).Err? ==>
        error == Some(MissingSpawnPoints) && Player == old(Player)
      ensures SpawnPlacement(Tree.SpawnPoints).Ok? ==>
        error == None && Player != null && fresh(Player) && Player.Name == "Player"
        && Player.Position == SpawnPlacement(Tree.SpawnPoints).value
    {
      var spawnPoints := Tree.SpawnPoints;
      if |spawnPoints| <= 0 {
        return Some(MissingSpawnPoints);
      }
      var spawnPoint := spawnPoints[0];
      var player := new Node2D("Player", Zero);
      Player := player;
      player.Position := spawnPoint.Position;
      error := None;
    }

    /** Switch: the existing player goes one cell past the trigger with the requested index. */
    method Switch(trigger: int) returns (error: Option<PlacementError>)
      modifies Player
      ensures SwitchPlacement(Tree.SceneTriggers, trigger).Err? ==>
        error == Some(SwitchPlacement(Tree.SceneTriggers, trigger).error)
        && (Player != null ==> Player.Position == old(Player.Position))
      ensures SwitchPlacement(Tree.SceneTriggers, trigger).Ok? && Player == null ==> error == Some(MissingPlayer)
      ensures SwitchPlacement(Tree.SceneTriggers, trigger).Ok? && Player != null ==>
        error == None && Player.Position == SwitchPlacement(Tree.SceneTriggers, trigger).value
    {
      var sceneTriggers := Tree.SceneTriggers;
      if |sceneTriggers| <= 0 {
        return Some(MissingSceneTriggers);
      }
      var k := TriggerIndex(sceneTriggers, trigger);
      if k.None? {
        return Some(MissingSceneTrigger(trigger));
      }
      var sceneTrigger := sceneTriggers[k.value];
      if Player == null {
        return Some(MissingPlayer);
      }
      Player.Position := sceneTrigger.Position.Plus(sceneTrigger.EntryDirection.Scale(Grid));
      error := None;
    }

    /** Parks call i, which alone holds the flag, at a phase that keeps holding it. */
    method SetHoldingPhase(i: nat, phase: Phase)
      requires HeldBy(i) && phase.Holding()
      requires phase.AwaitingFadeOut? ==> CurrentLevel != null
      modifies this`Transitions
      ensures FlagValid() && HeldBy(i)
      ensures Transitions == old(Transitions)[i := old(Transitions[i]).(phase := phase)]
    {
      Transitions := Transitions[i := Transitions[i].(phase := phase)];
      assert Transitions[i].phase.Holding();
    }

    /** The placement ChangeLevel makes after GetLevel: Spawn in spawn mode, Switch otherwise. */
    method Place(r: Request) returns (error: Option<PlacementError>)
      modifies this`Player, Player
      ensures error.None? <==> Placement(r).Ok?
      ensures error.Some? ==> Placement(r) == Err(error.value)
      ensures error.None? ==> Player != null && Player.Position == Placement(r).value
      ensures r.spawn && error.None? ==> fresh(Player) && Player.Name == "Player"
      ensures !r.spawn || error.Some? ==> Player == old(Player)
      ensures old(Player) != null && (r.spawn || error.Some?) ==> old(Player).Position == old(Player.Position)
    {
      if r.spawn {
        error := Spawn();
      } else {
        error := Switch(r.trigger);
      }
    }

    /**
     * The segment after GetLevel's fade-out (or straight after taking the
     * flag, with no level to fade from): swap the level, place the player,
     * start the fade-in. A failed placement ends the call with IsChanging
     * still set.
     */
    method SwapAndPlace(i: nat)
      requires SceneValid() && HeldBy(i)
      requires Transitions[i].phase == Waiting || Transitions[i].phase == AwaitingFadeOut
      modifies this, Tree, Player
      ensures Player == old(Player) || fresh(Player)
      ensures Valid() && IsChanging
      ensures |Transitions| == |old(Transitions)|
      ensures forall k :: 0 <= k < |Transitions| && k != i ==> Transitions[k] == old(Transitions[k])
      ensures Transitions[i].request == old(Transitions[i].request)
      ensures Arrived(i, old(AllLevels), old(Player))
      ensures Effects == ArrivalEffects(old(Effects), old(CurrentLevel), CurrentLevel, Transitions[i].phase == AwaitingFadeIn)
    {
      SwapLevel(Transitions[i].request.levelName);
      PlaceAndFadeIn(i);
    }

    /** Placement and the start of the fade-in, once the requested level is current. */
    method PlaceAndFadeIn(i: nat)
      requires HeldBy(i)
      requires Transitions[i].phase == Waiting || Transitions[i].phase == AwaitingFadeOut
      modifies this`Player, this`Effects, this`Transitions, Player
      ensures Player == old(Player) || fresh(Player)
      ensures FlagValid() && HeldBy(i)
      ensures |Transitions| == |old(Transitions)|
      ensures forall k :: 0 <= k < |Transitions| && k != i ==> Transitions[k] == old(Transitions[k])
      ensures Transitions[i].request == old(Transitions[i].request)
      ensures Placed(i, old(Player))
      ensures Effects == old(Effects) + if Transitions[i].phase == AwaitingFadeIn then [FadeInStarted] else []
    {
      var error := Place(Transitions[i].request);
      if error.Some? {
        SetHoldingPhase(i, Faulted(error.value));
      } else {
        Effects := Effects + [FadeInStarted];
        SetHoldingPhase(i, AwaitingFadeIn);
      }
    }

    /** The segment after the wait loop: take the flag, start the fade-out if there is a level. */
    method TakeFlag(i: nat)
      requires Valid() && i < |Transitions| && Transitions[i].phase == Waiting && !IsChanging
      modifies this, Tree, Player
      ensures Player == old(Player) || fresh(Player)
      ensures Valid() && IsChanging
      ensures |Transitions| == |old(Transitions)|
      ensures forall k :: 0 <= k < |Transitions| && k != i ==> Transitions[k] == old(Transitions[k])
      ensures Transitions[i].request == old(Transitions[i].request)
      ensures old(CurrentLevel) != null ==>
        Transitions[i].phase == AwaitingFadeOut && Effects == old(Effects) + [FadeOutStarted]
        && CurrentLevel == old(CurrentLevel) && AllLevels == old(AllLevels) && Player == old(Player)
        && unchanged(Tree) && (Player != null ==> unchanged(Player))
      ensures old(CurrentLevel) == null ==>
        Arrived(i, old(AllLevels), old(Player)) && Effects == ArrivalEffects(old(Effects), null, CurrentLevel, Transitions[i].phase == AwaitingFadeIn)
    {
      IsChanging := true;
      if CurrentLevel != null {
        Effects := Effects + [FadeOutStarted];
        SetHoldingPhase(i, AwaitingFadeOut);
      } else {
        SwapAndPlace(i);
      }
    }

    /** The segment after the fade-in: clear the flag. */
    method ReleaseFlag(i: nat)
      requires Valid() && i < |Transitions| && Transitions[i].phase == AwaitingFadeIn
      modifies this`IsChanging, this`Transitions
      ensures Valid() && !IsChanging
      ensures Transitions == old(Transitions)[i := old(Transitions[i]).(phase := Completed)]
    {
      IsChanging := false;
      Transitions := Transitions[i := Transitions[i].(phase := Completed)];
    }

    /**
     * Resumes call i at the await it is parked at. A waiting call goes on
     * waiting while another call holds the flag; otherwise it takes the flag
     * before it can be suspended again. The flag is cleared only after the
     * fade-in.
     */
    method Resume(i: nat)
      requires Valid() && i < |Transitions| && Transitions[i].phase.Suspended()
      modifies this, Tree, Player
      ensures Player == old(Player) || fresh(Player)
      ensures Valid()
      ensures |Transitions| == |old(Transitions)|
      ensures forall k :: 0 <= k < |Transitions| && k != i ==> Transitions[k] == old(Transitions[k])
      ensures Transitions[i].request == old(Transitions[i].request)
      ensures old(Transitions[i].phase) == Waiting && old(IsChanging) ==>
        unchanged(this, Tree) && (Player != null ==> unchanged(Player))
      ensures old(Transitions[i].phase) == Waiting && !old(IsChanging) ==> IsChanging && Transitions[i].phase != Waiting
      ensures old(Transitions[i].phase) == Waiting && !old(IsChanging) && old(CurrentLevel) != null ==>
        Transitions[i].phase == AwaitingFadeOut && Effects == old(Effects) + [FadeOutStarted]
        && CurrentLevel == old(CurrentLevel) && AllLevels == old(AllLevels) && Player == old(Player)
        && unchanged(Tree) && (Player != null ==> unchanged(Player))
      ensures (old(Transitions[i].phase) == Waiting && !old(IsChanging) && old(CurrentLevel) == null)
              || old(Transitions[i].phase) == AwaitingFadeOut ==>
        IsChanging && Arrived(i, old(AllLevels), old(Player))
        && Effects == ArrivalEffects(old(Effects), old(CurrentLevel), CurrentLevel, Transitions[i].phase == AwaitingFadeIn)
      ensures old(Transitions[i].phase) == AwaitingFadeIn ==>
        !IsChanging && Transitions[i].phase == Completed
        && CurrentLevel == old(CurrentLevel) && AllLevels == old(AllLevels) && Player == old(Player)
        && Effects == old(Effects) && unchanged(Tree) && (Player != null ==> unchanged(Player))
      ensures old(IsChanging) && !IsChanging ==> old(Transitions[i].phase) == AwaitingFadeIn
    {
      match Transitions[i].phase
      case Waiting =>
        if !IsChanging {
          TakeFlag(i);
        }
      case AwaitingFadeOut =>
        SwapAndPlace(i);
      case AwaitingFadeIn =>
        ReleaseFlag(i);
    }

    /**
     * The outcome of a ChangeLevel call for request r, run up to its first
     * await, with previous the player before the call. The call is recorded
     * after the earlier ones. If another call held the flag, the new one
     * waits and nothing else changed. Otherwise it took the flag: with a
     * level on screen it started the fade-out and changed nothing else; with
     * none it went straight on to the swap and the placement.
     */
    twostate predicate Requested(r: Request, previous: Node2D?)
      reads this, Tree, Player, previous
    {
      var i := |old(Transitions)|;
      && |Transitions| == i + 1
      && Transitions[..i] == old(Transitions)
      && Transitions[i].request == r
      && (old(IsChanging) ==>
            && Transitions[i].phase == Waiting && IsChanging
            && CurrentLevel == old(CurrentLevel) && AllLevels == old(AllLevels)
            && Player == old(Player) && Effects == old(Effects)
            && unchanged(Tree) && (Player != null ==> unchanged(Player)))
      && (!old(IsChanging) ==> IsChanging && Transitions[i].phase != Waiting)
      && (!old(IsChanging) && old(CurrentLevel) != null ==>
            && Transitions[i].phase == AwaitingFadeOut && Effects == old(Effects) + [FadeOutStarted]
            && CurrentLevel == old(CurrentLevel) && AllLevels == old(AllLevels) && Player == old(Player)
            && unchanged(Tree) && (Player != null ==> unchanged(Player)))
      && (!old(IsChanging) && old(CurrentLevel) == null ==>
            && Arrived(i, old(AllLevels), previous)
            && Effects == ArrivalEffects(old(Effects), null, CurrentLevel, Transitions[i].phase == AwaitingFadeIn))
    }

    /**
     * ChangeLevel: records the call and runs it up to its first await. It
     * takes the flag at once when no other call holds it, and waits
     * otherwise.
     */
    method ChangeLevel(levelName: LevelName, trigger: int, spawn: bool) returns (index: nat)
      requires Valid()
      modifies this, Tree, Player
      ensures Player == old(Player) || fresh(Player)
      ensures Valid()
      ensures index == |old(Transitions)|
      ensures Requested(Request(levelName, trigger, spawn), old(Player))
    {
      ghost var holder: nat := 0;
      if IsChanging {
        holder :| holder < |Transitions| && Transitions[holder].phase.Holding();
      }
      Transitions := Transitions + [Transition(Request(levelName, trigger, spawn), Waiting)];
      index := |Transitions| - 1;
      assert IsChanging ==> Transitions[holder].phase.Holding();
      Resume(index);
    }
  }

  /**
   * Two requests in the same frame: the first takes the flag before it can
   * be suspended, so the second finds it set and waits.
   */
  method SameFrameRequests(manager: SceneManager, first: Request, second: Request)
    returns (i: nat, j: nat)
    requires manager.Valid() && !manager.IsChanging
    modifies manager, manager.Tree, manager.Player
    ensures manager.Valid() && manager.IsChanging
    ensures i < j < |manager.Transitions|
    ensures manager.Transitions[i].phase.Holding() && manager.Transitions[j].phase == Waiting
  {
    i := manager.ChangeLevel(first.levelName, first.trigger, first.spawn);
    j := manager.ChangeLevel(second.levelName, second.trigger, second.spawn);
  }
}
