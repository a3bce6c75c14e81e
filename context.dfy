/**
 * The game context (CgContext): the settings, the difficulty table indexed
 * by round, the speed table indexed by level, the scripted demo input, and
 * the counters of one game and one round.
 */
module Context {
  import opened Direction
  import opened Scores

  datatype Level = LevelA | LevelB | LevelC | LevelD {
    function Index(): nat {
      match this
      case LevelA => 0
      case LevelB => 1
      case LevelC => 2
      case LevelD => 3
    }
  }

  /** The settings cycled by the options screen. */
  datatype OperationMode = Swipe | Touch | Accel {
    function Next(): OperationMode {
      match this
      case Swipe => Touch
      case Touch => Accel
      case Accel => Swipe
    }
  }

  datatype Language = English | Japanese {
    function Next(): Language {
      match this
      case English => Japanese
      case Japanese => English
    }
  }

  datatype OnOff = Off | On {
    function Next(): OnOff {
      match this
      case On => Off
      case Off => On
    }
  }

  datatype Setting = Clear | Keep {
    function Next(): Setting {
      match this
      case Clear => Keep
      case Keep => Clear
    }
  }

  /** Each option cycles through all its values and comes back: never a fixed point. */
  lemma NextCycles(m: OperationMode, l: Language, o: OnOff, s: Setting)
    ensures m.Next() != m && m.Next().Next() != m && m.Next().Next().Next() == m
    ensures l.Next() != l && l.Next().Next() == l
    ensures o.Next() != o && o.Next().Next() == o
    ensures s.Next() != s && s.Next().Next() == s
  {
  }

  /** What the player is doing, for the speed lookup (CgPlayer.EnPlayerAction). */
  datatype PlayerAction = None | Stopping | Walking | Turning | EatingFeed | EatingPower | EatingFruit

  /** What a ghost is doing, for the speed lookup (CgGhost.EnGhostAction). */
  datatype GhostAction = None | Walking | Spurting | Frightened | Warping | Standby | GoingOut | Escaping

  /** One row of the difficulty table. */
  datatype Difficulty = Difficulty(
    round: int, levelOfSpeed: Level, timeWithPower: int, feedsRemainingToSpurt: int,
    levelOfAppearance: Level, specialTarget: SpecialTargetKind, timeNotToEat: int, intermission: int)

  const DifficultyTable: seq<Difficulty> := [
    Difficulty( 1, LevelA, 6000,  20, LevelA, Cherry,     4000, 0),
    Difficulty( 2, LevelB, 5000,  30, LevelB, Strawberry, 4000, 1),
    Difficulty( 3, LevelB, 4000,  40, LevelC, Orange,     3000, 0),
    Difficulty( 4, LevelB, 3000,  40, LevelC, Orange,     3000, 0),
    Difficulty( 5, LevelC, 2000,  40, LevelC, Apple,      3000, 2),
    Difficulty( 6, LevelC, 5000,  50, LevelC, Apple,      3000, 0),
    Difficulty( 7, LevelC, 2000,  50, LevelC, Melon,      3000, 0),
    Difficulty( 8, LevelC, 2000,  50, LevelC, Melon,      3000, 0),
    Difficulty( 9, LevelC, 1000,  60, LevelC, Galaxian,   3000, 3),
    Difficulty(10, LevelC, 5000,  60, LevelC, Galaxian,   3000, 0),
    Difficulty(11, LevelC, 2000,  60, LevelC, Bell,       3000, 0),
    Difficulty(12, LevelC, 1000,  80, LevelC, Bell,       3000, 0),
    Difficulty(13, LevelC, 1000,  80, LevelC, Key,        3000, 3),
    Difficulty(14, LevelC, 3000,  80, LevelC, Key,        3000, 0),
    Difficulty(15, LevelC, 1000, 100, LevelC, Key,        3000, 0),
    Difficulty(16, LevelC, 1000, 100, LevelC, Key,        3000, 0),
    Difficulty(17, LevelC,    0, 100, LevelC, Key,        3000, 3),
    Difficulty(18, LevelC, 1000, 100, LevelC, Key,        3000, 0),
    Difficulty(19, LevelC,    0, 100, LevelC, Key,        3000, 0),
    Difficulty(20, LevelC,    0, 100, LevelC, Key,        3000, 0),
    Difficulty(21, LevelC,    0, 100, LevelC, Key,        3000, 0),
    Difficulty(22, LevelD,    0, 100, LevelC, Key,        3000, 0)
  ]

  /** One row of the speed table, in sixteenths of a dot per frame. */
  datatype SpeedRow = SpeedRow(
    eatNone: int, eatFeed: int, eatPow: int, eatNoneInPow: int, eatFeedInPow: int, eatPowInPow: int,
    ghostNormal: int, ghostInSpurt: int, ghostInPow: int, ghostInWarp: int)

  const SpeedTable: seq<SpeedRow> := [
    SpeedRow(16, 15, 13, 18, 17, 15, 15, 16, 10,  8),
    SpeedRow(18, 17, 15, 19, 18, 16, 17, 18, 11,  9),
    SpeedRow(20, 19, 17, 20, 19, 17, 19, 20, 12, 10),
    SpeedRow(18, 17, 15, 18, 17, 15, 19, 20, 10,  9)
  ]

  /** The rows are the rounds 1, 2, ... in order. */
  lemma DifficultyRowsAreRounds(i: int)
    requires 0 <= i < |DifficultyTable|
    ensures DifficultyTable[i].round == i + 1
  {
  }

  /**
   * The difficulty row for a round: the first row in demo mode, otherwise
   * row round-1, clamped to the last row. A non-demo round below 1 would
   * index the table at a negative position, which traps in the program.
   */
  function DifficultyOf(demo: bool, round: int): (r: Difficulty)
    requires demo || round >= 1
    ensures r.round == if demo then 1 else if round < |DifficultyTable| then round else |DifficultyTable|
    ensures r in DifficultyTable
  {
    var index := if demo then 0 else round - 1;
    var row := if index < |DifficultyTable| then DifficultyTable[index] else DifficultyTable[|DifficultyTable| - 1];
    DifficultyRowsAreRounds(if index < |DifficultyTable| then index else |DifficultyTable| - 1);
    row
  }

  /** Every round past the table plays like its last round. */
  lemma DifficultyClamps(round: int)
    requires round >= |DifficultyTable|
    ensures DifficultyOf(false, round) == DifficultyOf(false, |DifficultyTable|)
  {
  }

  /** The speed row of a level (the table has a row for every level, so the clamp never applies). */
  function SpeedRowOf(level: Level): (r: SpeedRow)
    ensures r in SpeedTable
  {
    if level.Index() < |SpeedTable| then SpeedTable[level.Index()] else SpeedTable[|SpeedTable| - 1]
  }

  /** The player's speed for an action, with or without power. */
  function PlayerSpeed(level: Level, action: PlayerAction, power: bool): (r: int)
    ensures action in {PlayerAction.None, PlayerAction.Stopping, PlayerAction.Turning} ==> r == 16
    ensures 13 <= r <= 20
  {
    var t := SpeedRowOf(level);
    match action
    case Walking => if power then t.eatNoneInPow else t.eatNone
    case EatingFeed => if power then t.eatFeedInPow else t.eatFeed
    case EatingPower => if power then t.eatPowInPow else t.eatPow
    case EatingFruit => if power then t.eatNoneInPow else t.eatNone
    case _ => 16
  }

  /**
   * Power never slows the player down; eating a feed is slower than
   * walking and a power feed slower still; eating fruit costs nothing.
   */
  lemma PlayerSpeedOrdering(level: Level, power: bool)
    ensures forall a: PlayerAction :: PlayerSpeed(level, a, true) >= PlayerSpeed(level, a, false)
    ensures PlayerSpeed(level, PlayerAction.EatingPower, power) < PlayerSpeed(level, PlayerAction.EatingFeed, power)
              < PlayerSpeed(level, PlayerAction.Walking, power)
    ensures PlayerSpeed(level, PlayerAction.EatingFruit, power) == PlayerSpeed(level, PlayerAction.Walking, power)
  {
  }

  /** A ghost's speed for an action. */
  function GhostSpeed(level: Level, action: GhostAction): (r: int)
    ensures action == GhostAction.Standby || action == GhostAction.GoingOut ==> r == 8
    ensures action == GhostAction.Escaping ==> r == 32
    ensures action == GhostAction.None ==> r == 16
    ensures 8 <= r <= 32
  {
    var t := SpeedRowOf(level);
    match action
    case Walking => t.ghostNormal
    case Spurting => t.ghostInSpurt
    case Frightened => t.ghostInPow
    case Warping => t.ghostInWarp
    case GoingOut => 8
    case Standby => 8
    case Escaping => 32
    case None => 16
  }

  /**
   * On every level: warping through the slow tunnel is slower than being
   * frightened, which is slower than walking, which is slower than
   * spurting, and escaping is the fastest.
   */
  lemma GhostSpeedOrdering(level: Level)
    ensures GhostSpeed(level, GhostAction.Warping) < GhostSpeed(level, GhostAction.Frightened)
              < GhostSpeed(level, GhostAction.Walking) < GhostSpeed(level, GhostAction.Spurting)
              < GhostSpeed(level, GhostAction.Escaping)
  {
  }

  /** How many ghosts may have left the nest, by the normal rule. */
  function NormalAppearance(level: Level, eaten: int): (r: int)
    ensures 2 <= r <= 4
    ensures level == LevelA ==> (r == 2 <==> eaten < 30) && (r == 4 <==> eaten >= 90)
    ensures level == LevelB ==> (r == 3 <==> eaten < 50)
    ensures level == LevelC || level == LevelD ==> r == 4
  {
    match level
    case LevelA => if eaten < 30 then 2 else if eaten < 90 then 3 else 4
    case LevelB => if eaten < 50 then 3 else 4
    case _ => 4
  }

  /** Eating more feeds never lets fewer ghosts out, and a harder level never lets fewer out. */
  lemma NormalAppearanceMonotone(level: Level, e1: int, e2: int)
    requires e1 <= e2
    ensures NormalAppearance(level, e1) <= NormalAppearance(level, e2)
    ensures NormalAppearance(LevelA, e1) <= NormalAppearance(LevelB, e1) <= NormalAppearance(LevelC, e1)
  {
  }

  /**
   * The ghosts allowed out and whether the player-miss bypass stays on:
   * after a miss, 1, 2 or 3 ghosts by feeds eaten since the miss, until 32
   * have been eaten, which ends the bypass and falls back to the normal rule.
   */
  function Appearance(playerMiss: bool, eatenByMiss: int, level: Level, eaten: int): (r: (int, bool))
    ensures 1 <= r.0 <= 4
    ensures r.1 <==> playerMiss && eatenByMiss < 32
    ensures !r.1 ==> r.0 == NormalAppearance(level, eaten)
    ensures r.1 ==> r.0 <= 3
  {
    if playerMiss then
      if eatenByMiss < 7 then (1, true)
      else if eatenByMiss < 17 then (2, true)
      else if eatenByMiss < 32 then (3, true)
      else (NormalAppearance(level, eaten), false)
    else (NormalAppearance(level, eaten), false)
  }

  /** Scatter/chase phases: true means chase, as a function of the time since the round went live. */
  function WavyChase(level: Level, time: int): (r: bool)
    ensures time < 5000 ==> !r
    ensures time >= 84000 ==> r
  {
    match level
    case LevelA =>
      (time >= 7000 && time < 27000) || (time >= 34000 && time < 54000) || (time >= 59000 && time < 79000) || time >= 84000
    case LevelB =>
      (time >= 7000 && time < 27000) || (time >= 34000 && time < 54000) || time >= 59000
    case _ =>
      (time >= 5000 && time < 25000) || (time >= 30000 && time < 50000) || time >= 55000
  }

  /** Each level has exactly three scatter phases before the final chase; level A's last ends at 84 s. */
  lemma WavyChaseScatterPhases(level: Level)
    ensures level == LevelA ==> !WavyChase(level, 83999) && !WavyChase(level, 58999) && !WavyChase(level, 33999)
    ensures level == LevelB ==> !WavyChase(level, 58999) && WavyChase(level, 59000)
    ensures level in {LevelC, LevelD} ==> !WavyChase(level, 54999) && WavyChase(level, 55000)
  {
  }

  /** Blinky spurts once no more than the table's number of feeds remain. */
  function BlinkySpurt(numberOfFeeds: int, eaten: int, remainingToSpurt: int): (r: bool)
    ensures r <==> numberOfFeeds - eaten <= remainingToSpurt
  {
    var feedsRemain := numberOfFeeds - eaten;
    feedsRemain <= remainingToSpurt
  }

  /** Spurting, once begun, survives every later feed eaten. */
  lemma BlinkySpurtPersists(numberOfFeeds: int, e1: int, e2: int, remainingToSpurt: int)
    requires e1 <= e2 && BlinkySpurt(numberOfFeeds, e1, remainingToSpurt)
    ensures BlinkySpurt(numberOfFeeds, e2, remainingToSpurt)
  {
  }

  /** A scripted demo input: at frame frameCount, swipe direction. */
  datatype DemoOperation = DemoOperation(frameCount: int, direction: Dir)

  const DemoTable: seq<DemoOperation> := [
    DemoOperation(9, Left), DemoOperation(36, Down), DemoOperation(61, Right), DemoOperation(82, Down),
    DemoOperation(109, Right), DemoOperation(133, Up), DemoOperation(162, Right), DemoOperation(189, Up),
    DemoOperation(215, Right), DemoOperation(238, Down), DemoOperation(261, Right), DemoOperation(308, Down),
    DemoOperation(335, Left), DemoOperation(523, Up), DemoOperation(555, Right), DemoOperation(569, Up),
    DemoOperation(609, Left), DemoOperation(632, Up), DemoOperation(648, Right), DemoOperation(684, Up),
    DemoOperation(732, Left), DemoOperation(831, Down), DemoOperation(864, Left), DemoOperation(931, Up),
    DemoOperation(948, Left), DemoOperation(970, Up), DemoOperation(1063, Right), DemoOperation(1113, Down),
    DemoOperation(1157, Right), DemoOperation(1218, Down)
  ]

  /** The script is in strictly increasing frame order and only ever swipes a real heading. */
  lemma DemoTableOrdered(i: int, j: int)
    requires 0 <= i < j < |DemoTable|
    ensures DemoTable[i].frameCount < DemoTable[j].frameCount
    ensures DemoTable[i].direction.IsHeading()
  {
  }

  /** The extra-life threshold of a new game, by language. */
  function ExtendScore(language: Language): (r: int)
    ensures r == 10000 || r == 20000
  {
    if language == English then 20000 else 10000
  }

  class CgContext {
    var operationMode: OperationMode
    var extraMode: OnOff
    var debugMode: OnOff
    var resetSetting: Setting
    var language: Language

    var highScore: int
    var score: int
    var numberOfPlayers: int
    var round: int
    var credit: int

    var scoreExtendPlayer: int
    var scoreExtendedPlayer: bool

    var numberOfFeeds: int
    var playerMiss: bool
    var numberOfFeedsEatenByMiss: int
    var numberOfFeedsEaten: int
    var numberOfFeedsRemainingToSpurt: int
    var numberOfFeedsToAppearSpecialTarget: int
    var kindOfSpecialTarget: SpecialTargetKind

    var ghostPts: ScorePts

    var levelOfSpeed: Level
    var levelOfAppearance: Level
    var timeWithPower: int
    var timeNotToEat: int
    var intermission: int

    var demo: bool
    var demoSequence: int
    var counterByFrame: int

    /** A context whose stored settings asked for a reset (or were never saved). */
    constructor()
      ensures highScore == 0 && operationMode == Swipe && extraMode == Off && debugMode == Off
      ensures language == English && resetSetting == Clear
      ensures score == 0 && round == 0 && !demo && demoSequence == 0
    {
      operationMode := Swipe;
      extraMode := Off;
      debugMode := Off;
      resetSetting := Clear;
      language := English;
      highScore := 0;
      score := 0;
      numberOfPlayers := 0;
      round := 0;
      credit := 0;
      scoreExtendPlayer := 0;
      scoreExtendedPlayer := false;
      numberOfFeeds := 0;
      playerMiss := false;
      numberOfFeedsEatenByMiss := 0;
      numberOfFeedsEaten := 0;
      numberOfFeedsRemainingToSpurt := 0;
      numberOfFeedsToAppearSpecialTarget := 0;
      kindOfSpecialTarget := SpecialTargetKind.None;
      ghostPts := Pts100;
      levelOfSpeed := LevelA;
      levelOfAppearance := LevelA;
      timeWithPower := 0;
      timeNotToEat := 0;
      intermission := 0;
      demo := false;
      demoSequence := 0;
      counterByFrame := 0;
    }

    /** The stored settings back to their defaults; the game's progress is left alone. */
    method ResetConfiguration()
      modifies this`highScore, this`operationMode, this`extraMode, this`debugMode, this`language, this`resetSetting
      ensures highScore == 0 && operationMode == Swipe && extraMode == Off && debugMode == Off
      ensures language == English && resetSetting == Clear
    {
      highScore := 0;
      operationMode := Swipe;
      extraMode := Off;
      debugMode := Off;
      language := English;
      resetSetting := Clear;
    }

    /** A new game: no score, three lives, round 1, the extra life not yet given. */
    method ResetGame()
      modifies this`score, this`numberOfPlayers, this`round, this`scoreExtendPlayer, this`scoreExtendedPlayer
      ensures score == 0 && numberOfPlayers == 3 && round == 1
      ensures scoreExtendPlayer == ExtendScore(language) && !scoreExtendedPlayer
    {
      score := 0;
      numberOfPlayers := 3;
      round := 1;
      scoreExtendPlayer := if language == English then 20000 else 10000;
      scoreExtendedPlayer := false;
    }

    /** A new round: counters cleared, ghost popups back to 200, and the round's difficulty. */
    method ResetRound()
      requires demo || round >= 1
      modifies this`playerMiss, this`numberOfFeedsEatenByMiss, this`numberOfFeedsEaten,
               this`numberOfFeedsToAppearSpecialTarget, this`ghostPts,
               this`levelOfSpeed, this`timeWithPower, this`numberOfFeedsRemainingToSpurt, this`levelOfAppearance,
               this`kindOfSpecialTarget, this`timeNotToEat, this`intermission
      ensures !playerMiss && numberOfFeedsEatenByMiss == 0 && numberOfFeedsEaten == 0
      ensures numberOfFeedsToAppearSpecialTarget == 70 && ghostPts == Pts200
      ensures Applies(DifficultyOf(demo, round))
    {
      playerMiss := false;
      numberOfFeedsEatenByMiss := 0;
      numberOfFeedsEaten := 0;
      numberOfFeedsToAppearSpecialTarget := 70;
      ResetGhostPts();
      SetDifficulty();
    }

    method ResetGhostPts()
      modifies this`ghostPts
      ensures ghostPts == Pts200
    {
      ghostPts := Pts200;
    }

    /** A life is lost: the ghost-release bypass starts counting from zero. */
    method SetPlayerMiss()
      modifies this`numberOfFeedsEatenByMiss, this`playerMiss
      ensures numberOfFeedsEatenByMiss == 0 && playerMiss
    {
      numberOfFeedsEatenByMiss := 0;
      playerMiss := true;
    }

    /** Raise the high score to the score; report whether it was beaten. */
    method UpdateHighScore() returns (updated: bool)
      modifies this`highScore
      ensures updated <==> score > old(highScore)
      ensures highScore >= score && highScore >= old(highScore)
      ensures highScore == if updated then score else old(highScore)
    {
      updated := score > highScore;
      if updated {
        highScore := score;
      }
    }

    /** The next fruit appears after another 100 feeds. */
    method UpdateSpecialTargetAppeared()
      modifies this`numberOfFeedsToAppearSpecialTarget
      ensures numberOfFeedsToAppearSpecialTarget == old(numberOfFeedsToAppearSpecialTarget) + 100
    {
      numberOfFeedsToAppearSpecialTarget := numberOfFeedsToAppearSpecialTarget + 100;
    }

    /** The round-dependent fields hold the values of row d. */
    predicate Applies(d: Difficulty)
      reads this
    {
      levelOfSpeed == d.levelOfSpeed && timeWithPower == d.timeWithPower
      && numberOfFeedsRemainingToSpurt == d.feedsRemainingToSpurt && levelOfAppearance == d.levelOfAppearance
      && kindOfSpecialTarget == d.specialTarget && timeNotToEat == d.timeNotToEat && intermission == d.intermission
    }

    method SetDifficulty()
      requires demo || round >= 1
      modifies this`levelOfSpeed, this`timeWithPower, this`numberOfFeedsRemainingToSpurt, this`levelOfAppearance,
               this`kindOfSpecialTarget, this`timeNotToEat, this`intermission
      ensures Applies(DifficultyOf(demo, round))
    {
      var index := if demo then 0 else round - 1;
      var count := |DifficultyTable|;
      var table := if index < count then DifficultyTable[index] else DifficultyTable[count - 1];
      levelOfSpeed := table.levelOfSpeed;
      timeWithPower := table.timeWithPower;
      numberOfFeedsRemainingToSpurt := table.feedsRemainingToSpurt;
      levelOfAppearance := table.levelOfAppearance;
      kindOfSpecialTarget := table.specialTarget;
      timeNotToEat := table.timeNotToEat;
      intermission := table.intermission;
    }

    /** The player's speed at the round's speed level: 16 whenever it is not moving on its own. */
    function GetPlayerSpeed(action: PlayerAction, power: bool): (r: int)
      reads this
      ensures action in {PlayerAction.None, PlayerAction.Stopping, PlayerAction.Turning} ==> r == 16
      ensures 13 <= r <= 20
      ensures r == PlayerSpeed(levelOfSpeed, action, power)
    {
      PlayerSpeed(levelOfSpeed, action, power)
    }

    /** A ghost's speed at the round's speed level: fixed in and out of the nest and when escaping. */
    function GetGhostSpeed(action: GhostAction): (r: int)
      reads this
      ensures action == GhostAction.Standby || action == GhostAction.GoingOut ==> r == 8
      ensures action == GhostAction.Escaping ==> r == 32
      ensures 8 <= r <= 32
      ensures r == GhostSpeed(levelOfSpeed, action)
    {
      GhostSpeed(levelOfSpeed, action)
    }

    /**
     * The number of ghosts allowed out of the nest; in the bypass after a
     * miss, reaching 32 feeds clears the miss flag and asks again.
     */
    method GetNumberOfGhostsForAppearance() returns (numberOfGhosts: int)
      modifies this`playerMiss
      ensures (numberOfGhosts, playerMiss) ==
                Appearance(old(playerMiss), numberOfFeedsEatenByMiss, levelOfAppearance, numberOfFeedsEaten)
      ensures 1 <= numberOfGhosts <= 4
      decreases if playerMiss then 1 else 0
    {
      if playerMiss {
        if numberOfFeedsEatenByMiss < 7 {
          numberOfGhosts := 1;
        } else if numberOfFeedsEatenByMiss < 17 {
          numberOfGhosts := 2;
        } else if numberOfFeedsEatenByMiss < 32 {
          numberOfGhosts := 3;
        } else {
          playerMiss := false;
          numberOfGhosts := GetNumberOfGhostsForAppearance();
        }
      } else {
        numberOfGhosts := NormalAppearance(levelOfAppearance, numberOfFeedsEaten);
      }
    }

    /** Whether the ghosts chase at this time of the round: never in the first 5 s, always at level A after 84 s. */
    function JudgeGhostsWavyChase(time: int): (r: bool)
      reads this
      ensures time < 5000 ==> !r
      ensures levelOfSpeed == LevelA && time >= 84000 ==> r
      ensures r == WavyChase(levelOfSpeed, time)
    {
      WavyChase(levelOfSpeed, time)
    }

    /** Whether Blinky spurts: once no more feeds remain than the round's spurt threshold. */
    function JudgeBlinkySpurt(): (r: bool)
      reads this
      ensures r <==> numberOfFeeds - numberOfFeedsEaten <= numberOfFeedsRemainingToSpurt
    {
      BlinkySpurt(numberOfFeeds, numberOfFeedsEaten, numberOfFeedsRemainingToSpurt)
    }

    /**
     * The scripted swipe for the current frame: the next entry of the
     * script once its frame has come (advancing the script by one), None
     * before that and after the script ends.
     */
    method GetOperationForDemo() returns (direction: Dir)
      requires demoSequence >= 0
      modifies this`demoSequence
      ensures demoSequence == old(demoSequence) || demoSequence == old(demoSequence) + 1
      ensures old(demoSequence) >= |DemoTable| ==> direction == Dir.None && demoSequence == old(demoSequence)
      ensures demoSequence == old(demoSequence) + 1 <==>
                old(demoSequence) < |DemoTable| && counterByFrame >= DemoTable[old(demoSequence)].frameCount
      ensures demoSequence == old(demoSequence) + 1 ==> direction == DemoTable[old(demoSequence)].direction
      ensures demoSequence == old(demoSequence) ==> direction == Dir.None
    {
      if demoSequence >= |DemoTable| {
        return Dir.None;
      }
      var table := DemoTable[demoSequence];
      direction := Dir.None;
      if counterByFrame >= table.frameCount {
        direction := table.direction;
        demoSequence := demoSequence + 1;
      }
    }
  }
}
