/**
 * The maze scene's game rules (CgSceneMaze): eating feeds and fruit,
 * scoring with the one extra life, eating a ghost, losing a life, and the
 * flashing maze between rounds. The scene's sequence numbers are the game
 * states below.
 */
module Maze {
  import opened Wrappers
  import opened Position
  import opened Grid
  import opened Scores
  import opened Scene
  import opened Timer
  import opened Popups
  import opened SpecialTarget
  import opened GhostManager
  import Context
  import Player
  import Ghost
  import Direction

  /** The states of the game, numbered as the scene's sequence numbers. */
  datatype GameState =
    | Init | Start | Ready | Go | Updating | ReturnToUpdating | RoundClear | PrepareFlashMaze | FlashMaze
    | PlayerMiss | PlayerDisappeared | PlayerRestart | GameOver | Intermission | Demo
  {
    function Raw(): int {
      match this
      case Init => 0
      case Start => 1
      case Ready => 2
      case Go => 3
      case Updating => 4
      case ReturnToUpdating => 5
      case RoundClear => 6
      case PrepareFlashMaze => 7
      case FlashMaze => 8
      case PlayerMiss => 9
      case PlayerDisappeared => 10
      case PlayerRestart => 11
      case GameOver => 12
      case Intermission => 13
      case Demo => 14
    }
  }

  /** The state a sequence number stands for, if any. */
  function StateOf(n: int): (r: Option<GameState>)
    ensures r.Some? <==> 0 <= n <= 14
    ensures r.Some? ==> r.value.Raw() == n
  {
    match n
    case 0 => Some(Init)
    case 1 => Some(Start)
    case 2 => Some(Ready)
    case 3 => Some(Go)
    case 4 => Some(Updating)
    case 5 => Some(ReturnToUpdating)
    case 6 => Some(RoundClear)
    case 7 => Some(PrepareFlashMaze)
    case 8 => Some(FlashMaze)
    case 9 => Some(GameState.PlayerMiss)
    case 10 => Some(PlayerDisappeared)
    case 11 => Some(PlayerRestart)
    case 12 => Some(GameOver)
    case 13 => Some(Intermission)
    case 14 => Some(Demo)
    case _ => Option.None
  }

  /** Every state has its own number. */
  lemma StateNumbersRoundTrip(s: GameState)
    ensures StateOf(s.Raw()) == Some(s)
  {
  }

  /** Whether the scene goes on after handling sequence number n: unknown numbers and GameOver end it. */
  function SequenceContinues(n: int): (r: bool)
    ensures r <==> 0 <= n <= 14 && n != GameOver.Raw()
  {
    match StateOf(n)
    case Some(s) => s != GameOver
    case None => false
  }

  /** The score, high score and extra-life bookkeeping of a game. */
  datatype ScoreBook = ScoreBook(score: int, highScore: int, extendAt: int, extended: bool, players: int)

  /**
   * Adding points: nothing in the demo; otherwise the score grows, the high
   * score follows it, and the first time the score reaches the extra-life
   * threshold the player gets one more life.
   */
  function AddPoints(b: ScoreBook, pts: int, demo: bool): (r: ScoreBook)
    ensures demo ==> r == b
    ensures !demo ==> r.score == b.score + pts && r.highScore >= r.score && r.highScore >= b.highScore
    ensures !demo ==> (r.highScore == r.score || r.highScore == b.highScore)
    ensures r.extendAt == b.extendAt && (b.extended ==> r.extended)
    ensures r.players == b.players + (if r.extended && !b.extended then 1 else 0)
    ensures !demo && !b.extended ==> (r.extended <==> r.score >= b.extendAt)
  {
    if demo then b
    else
      var score := b.score + pts;
      var high := if score > b.highScore then score else b.highScore;
      if !b.extended && score >= b.extendAt then ScoreBook(score, high, b.extendAt, true, b.players + 1)
      else ScoreBook(score, high, b.extendAt, b.extended, b.players)
  }

  /** A run of additions, in order. */
  function AddAll(b: ScoreBook, pts: seq<int>, demo: bool): ScoreBook
    decreases |pts|
  {
    if pts == [] then b else AddAll(AddPoints(b, pts[0], demo), pts[1..], demo)
  }

  /**
   * Over any run of additions the extra life is given at most once: the
   * number of lives grows by one at most, and only when the extra life had
   * not been given yet; once the score has reached the threshold (with
   * points that are never negative) it has been given; the high score never
   * falls below the score nor below what it was.
   */
  lemma {:induction false} ExtraLifeAtMostOnce(b: ScoreBook, pts: seq<int>, demo: bool)
    requires b.highScore >= b.score && (b.score >= b.extendAt ==> b.extended)
    ensures var a := AddAll(b, pts, demo);
      && b.players <= a.players <= b.players + (if b.extended then 0 else 1)
      && (a.players == b.players + 1 <==> !b.extended && a.extended)
      && (b.extended ==> a.extended)
      && a.highScore >= a.score && a.highScore >= b.highScore
      && a.extendAt == b.extendAt
      && (a.score >= b.extendAt ==> a.extended)
    decreases |pts|
  {
    if pts != [] {
      ExtraLifeAtMostOnce(AddPoints(b, pts[0], demo), pts[1..], demo);
    }
  }

  /** The colour the maze wall is redrawn in while flashing. */
  datatype WallColor = White | Blue

  /** The frames the maze flashes for: 104 frames of 16 ms. */
  const FLASH_FRAMES: int := 104

  /** The redraw, if any, on the flashing frame where the counter stands at t. */
  function FlashAt(t: int): (r: Option<WallColor>)
    requires t > 0
    ensures r.Some? <==> t % 13 == 0
    ensures r == Some(White) <==> t % 26 == 0
  {
    if t % 26 == 0 then Some(White) else if t % 26 == 13 then Some(Blue) else Option.None
  }

  /**
   * Counting down from FLASH_FRAMES, the wall turns white on the first
   * flashing frame and then alternates blue and white every 13 frames:
   * eight redraws in all, four of each.
   */
  lemma FlashCadence(k: int)
    requires 0 <= k < FLASH_FRAMES
    ensures FlashAt(FLASH_FRAMES - k) == Some(White) <==> k % 26 == 0
    ensures FlashAt(FLASH_FRAMES - k) == Some(Blue) <==> k % 26 == 13
    ensures FlashAt(FLASH_FRAMES - k).Some? <==> k % 13 == 0
  {
  }

  /**
   * What eating a feed does to the ghosts: after a power feed every ghost
   * not returning to the nest is frightened for time and turns back;
   * every other ghost keeps its state, dot and heading.
   */
  twostate predicate GhostsAfterFeed(gs: seq<Ghost.CgGhost>, power: bool, time: int)
    reads gs
  {
    forall i :: 0 <= i < |gs| ==>
      var hit := power && !old(gs[i].state).IsEscaping();
      && gs[i].state == (if hit then old(gs[i].state).SetFrightened(true, time) else old(gs[i].state))
      && (gs[i].position, gs[i].heading) ==
           if hit then Ghost.Redirect(old(gs[i].position), old(gs[i].heading), Direction.Reverse(old(gs[i].heading).current))
           else (old(gs[i].position), old(gs[i].heading))
  }

  class CgSceneMaze {
    const context: Context.CgContext
    const grid: CgMazeGrid
    const player: Player.CgPlayer
    const ghosts: CgGhostManager
    const specialTarget: CgSpecialTarget
    const ptsManager: CgScorePtsManager
    /** The sequencer state of the scene. */
    var scene: SceneState
    var blinkingTimer: int

    function Book(): ScoreBook
      reads context
    {
      ScoreBook(context.score, context.highScore, context.scoreExtendPlayer, context.scoreExtendedPlayer, context.numberOfPlayers)
    }

    constructor(context: Context.CgContext, grid: CgMazeGrid, player: Player.CgPlayer, ghosts: CgGhostManager,
                specialTarget: CgSpecialTarget, ptsManager: CgScorePtsManager)
      ensures this.context == context && this.grid == grid && this.player == player && this.ghosts == ghosts
      ensures this.specialTarget == specialTarget && this.ptsManager == ptsManager
      ensures scene == SceneState(FreshTimer, 0, 0, true).ResetSequence() && blinkingTimer == 0
    {
      this.context := context;
      this.grid := grid;
      this.player := player;
      this.ghosts := ghosts;
      this.specialTarget := specialTarget;
      this.ptsManager := ptsManager;
      scene := SceneState(FreshTimer, 0, 0, true).ResetSequence();
      blinkingTimer := 0;
    }

    method GoToNextSequence(state: GameState, time: int)
      modifies this`scene
      ensures scene == old(scene).GoToNext(state.Raw(), time)
    {
      scene := scene.GoToNext(state.Raw(), time);
    }

    /** Add points to the score as AddPoints says. */
    method AddScore(pts: int)
      modifies context`score, context`highScore, context`scoreExtendedPlayer, context`numberOfPlayers
      ensures Book() == old(AddPoints(Book(), pts, context.demo))
    {
      if context.demo {
        return;
      }
      context.score := context.score + pts;
      var _ := context.UpdateHighScore();
      if !context.scoreExtendedPlayer {
        if context.score >= context.scoreExtendPlayer {
          context.scoreExtendedPlayer := true;
          context.numberOfPlayers := context.numberOfPlayers + 1;
        }
      }
    }

    /**
     * The player eats a feed (power false) or a power feed (power true) on
     * the tile at column, row: the tile becomes Road; a power feed resets
     * the ghost popups to 200 and frightens every ghost that is not
     * escaping; 50 or 10 points; both eaten counters go up; the special
     * target appears when the count reaches its threshold; the round is
     * cleared when every feed has been eaten.
     */
    method PlayerEatFeed(column: int, row: int, power: bool)
      requires grid.Valid() && 0 <= column < BG_WIDTH && 0 <= row < BG_HEIGHT
      requires ghosts.Valid() && specialTarget.Valid() && specialTarget.grid == grid
      modifies grid.values, context`ghostPts, ghosts.ghosts`state, ghosts.ghosts`position, ghosts.ghosts`heading,
               context`score, context`highScore, context`scoreExtendedPlayer, context`numberOfPlayers,
               context`numberOfFeedsEaten, context`numberOfFeedsEatenByMiss, context`numberOfFeedsToAppearSpecialTarget,
               specialTarget`enabled, specialTarget`kind, specialTarget`timer, this`scene
      ensures Book() == old(AddPoints(Book(), if power then 50 else 10, context.demo))
      ensures context.numberOfFeedsEaten == old(context.numberOfFeedsEaten) + 1
      ensures context.numberOfFeedsEatenByMiss == old(context.numberOfFeedsEatenByMiss) + 1
      ensures power ==> context.ghostPts == Pts200
      ensures !power ==> context.ghostPts == old(context.ghostPts)
      ensures GhostsAfterFeed(ghosts.ghosts, power, context.timeWithPower)
      ensures old(context.JudgeBlinkySpurt()) ==> context.JudgeBlinkySpurt()
      ensures var appears := context.numberOfFeedsEaten == old(context.numberOfFeedsToAppearSpecialTarget);
        && (appears ==> specialTarget.enabled && specialTarget.kind == context.kindOfSpecialTarget
                        && context.numberOfFeedsToAppearSpecialTarget == old(context.numberOfFeedsToAppearSpecialTarget) + 100
                        && grid.GetTile(specialTarget.position.column, specialTarget.position.row) == Fruit)
        && (!appears ==> specialTarget.enabled == old(specialTarget.enabled)
                         && context.numberOfFeedsToAppearSpecialTarget == old(context.numberOfFeedsToAppearSpecialTarget))
        && (grid.values[column, row] == Road
            || (appears && (column, row) == (specialTarget.position.column, specialTarget.position.row)))
      ensures context.numberOfFeedsEaten == context.numberOfFeeds ==> scene == old(scene).GoToNext(RoundClear.Raw(), 0)
      ensures context.numberOfFeedsEaten != context.numberOfFeeds ==> scene == old(scene)
    {
      ScoreFeed(column, row, power);
      CountFeed();
      if context.numberOfFeedsEaten == context.numberOfFeeds {
        GoToNextSequence(RoundClear, 0);
      }
    }

    /** The feed's tile becomes Road; a power feed frightens the ghosts; the points are added. */
    method ScoreFeed(column: int, row: int, power: bool)
      requires grid.Valid() && 0 <= column < BG_WIDTH && 0 <= row < BG_HEIGHT
      requires ghosts.Valid()
      modifies grid.values, context`ghostPts, ghosts.ghosts`state, ghosts.ghosts`position, ghosts.ghosts`heading,
               context`score, context`highScore, context`scoreExtendedPlayer, context`numberOfPlayers
      ensures grid.values[column, row] == Road
      ensures forall c, r :: 0 <= c < BG_WIDTH && 0 <= r < BG_HEIGHT && (c, r) != (column, row) ==>
                grid.values[c, r] == old(grid.values[c, r])
      ensures Book() == old(AddPoints(Book(), if power then 50 else 10, context.demo))
      ensures power ==> context.ghostPts == Pts200
      ensures !power ==> context.ghostPts == old(context.ghostPts)
      ensures GhostsAfterFeed(ghosts.ghosts, power, context.timeWithPower)
    {
      grid.SetTile(column, row, Road);
      if power {
        context.ResetGhostPts();
        ghosts.SetStateToFrightened(context.timeWithPower);
        AddScore(50);
      } else {
        AddScore(10);
      }
    }

    /** Both eaten counters go up; the special target appears when the count reaches its threshold. */
    method CountFeed()
      requires specialTarget.Valid()
      modifies context`numberOfFeedsEaten, context`numberOfFeedsEatenByMiss, context`numberOfFeedsToAppearSpecialTarget,
               specialTarget`enabled, specialTarget`kind, specialTarget`timer, specialTarget.grid.values
      ensures context.numberOfFeedsEaten == old(context.numberOfFeedsEaten) + 1
      ensures context.numberOfFeedsEatenByMiss == old(context.numberOfFeedsEatenByMiss) + 1
      ensures var appears := context.numberOfFeedsEaten == old(context.numberOfFeedsToAppearSpecialTarget);
        && (appears ==> specialTarget.enabled && specialTarget.kind == context.kindOfSpecialTarget
                        && context.numberOfFeedsToAppearSpecialTarget == old(context.numberOfFeedsToAppearSpecialTarget) + 100
                        && specialTarget.grid.GetTile(specialTarget.position.column, specialTarget.position.row) == Fruit
                        && forall c, r ::
                             0 <= c < BG_WIDTH && 0 <= r < BG_HEIGHT && (c, r) != (specialTarget.position.column, specialTarget.position.row) ==>
                             specialTarget.grid.values[c, r] == old(specialTarget.grid.values[c, r]))
        && (!appears ==> specialTarget.enabled == old(specialTarget.enabled)
                         && context.numberOfFeedsToAppearSpecialTarget == old(context.numberOfFeedsToAppearSpecialTarget)
                         && unchanged(specialTarget.grid.values))
      ensures old(context.JudgeBlinkySpurt()) ==> context.JudgeBlinkySpurt()
    {
      context.numberOfFeedsEaten := context.numberOfFeedsEaten + 1;
      context.numberOfFeedsEatenByMiss := context.numberOfFeedsEatenByMiss + 1;
      if context.numberOfFeedsEaten == context.numberOfFeedsToAppearSpecialTarget {
        specialTarget.Start(context.kindOfSpecialTarget);
        context.UpdateSpecialTargetAppeared();
      }
    }

    /**
     * The player eats the special target on the tile at column, row: the
     * tile becomes Road, the special target goes away, its score shows in a
     * popup for 2000 ms where it stood, and is added.
     */
    method PlayerEatFruit(column: int, row: int)
      requires grid.Valid() && 0 <= column < BG_WIDTH && 0 <= row < BG_HEIGHT
      requires specialTarget.Valid() && specialTarget.grid == grid && ptsManager.Valid()
      modifies grid.values, specialTarget`enabled, specialTarget`timer,
               ptsManager`actors, ptsManager`doings, ptsManager`enabled, ptsManager.actors, ptsManager.doings,
               context`score, context`highScore, context`scoreExtendedPlayer, context`numberOfPlayers
      ensures !specialTarget.enabled && specialTarget.timer == old(specialTarget.timer).Stop()
      ensures grid.values[column, row] == Road
      ensures grid.GetTile(specialTarget.position.column, specialTarget.position.row) == Road
      ensures ptsManager.Valid() && ptsManager.enabled && ptsManager.doings != []
      ensures var p := ptsManager.doings[|ptsManager.doings| - 1];
        p.enabled && p.kind == ScorePtsOf(context.kindOfSpecialTarget) && p.timer.currentTime == 2000
        && p.position == Placed(specialTarget.position.column, specialTarget.position.row,
                                specialTarget.position.dx, specialTarget.position.dy)
      ensures Book() == old(AddPoints(Book(), Score(ScorePtsOf(context.kindOfSpecialTarget)), context.demo))
    {
      grid.SetTile(column, row, Road);
      specialTarget.Stop();
      var kind := ScorePtsOf(context.kindOfSpecialTarget);
      ptsManager.Start(kind, specialTarget.position, 2000);
      AddScore(Score(kind));
    }

    /** What the player reports eating, passed on to the rule for it. */
    method PlayerEat(meal: Player.Meal)
      requires grid.Valid() && 0 <= meal.column < BG_WIDTH && 0 <= meal.row < BG_HEIGHT
      requires ghosts.Valid() && specialTarget.Valid() && specialTarget.grid == grid && ptsManager.Valid()
      modifies grid.values, context`ghostPts, ghosts.ghosts`state, ghosts.ghosts`position, ghosts.ghosts`heading,
               context`score, context`highScore, context`scoreExtendedPlayer, context`numberOfPlayers,
               context`numberOfFeedsEaten, context`numberOfFeedsEatenByMiss, context`numberOfFeedsToAppearSpecialTarget,
               specialTarget`enabled, specialTarget`kind, specialTarget`timer, this`scene,
               ptsManager`actors, ptsManager`doings, ptsManager`enabled, ptsManager.actors, ptsManager.doings
      ensures meal.tile == Feed || meal.tile == PowerFeed ==>
                context.numberOfFeedsEaten == old(context.numberOfFeedsEaten) + 1
                && Book() == old(AddPoints(Book(), if meal.tile == PowerFeed then 50 else 10, context.demo))
      ensures meal.tile == Fruit ==>
                context.numberOfFeedsEaten == old(context.numberOfFeedsEaten) && !specialTarget.enabled
                && Book() == old(AddPoints(Book(), Score(ScorePtsOf(context.kindOfSpecialTarget)), context.demo))
      ensures meal.tile !in {Feed, PowerFeed, Fruit} ==> Book() == old(Book()) && scene == old(scene)
    {
      match meal.tile {
        case Feed => PlayerEatFeed(meal.column, meal.row, false);
        case PowerFeed => PlayerEatFeed(meal.column, meal.row, true);
        case Fruit => PlayerEatFruit(meal.column, meal.row);
        case _ =>
      }
    }

    /**
     * The player has eaten a ghost: the ghost's popup shows for 1000 ms
     * where they met, the next ghost is worth twice as much, the points are
     * added, and everything but the escaping ghosts stops for 1000 ms.
     */
    method PlayerEatsGhost()
      requires ghosts.Valid() && ptsManager.Valid()
      modifies ptsManager`actors, ptsManager`doings, ptsManager`enabled, ptsManager.actors, ptsManager.doings,
               context`ghostPts, context`score, context`highScore, context`scoreExtendedPlayer, context`numberOfPlayers,
               player`enabled, specialTarget`enabled, ghosts.ghosts`enabled, this`scene
      ensures ptsManager.Valid() && ptsManager.doings != []
      ensures var p := ptsManager.doings[|ptsManager.doings| - 1];
        && p.kind == old(context.ghostPts) && p.enabled && p.timer.currentTime == 1000
        && p.position == Placed(ghosts.collisionPosition.column, ghosts.collisionPosition.row,
                                ghosts.collisionPosition.dx, ghosts.collisionPosition.dy)
      ensures context.ghostPts == TwoTimes(old(context.ghostPts))
      ensures Book() == old(AddPoints(Book(), Score(context.ghostPts), context.demo))
      ensures !player.enabled && !specialTarget.enabled
      ensures forall i :: 0 <= i < |ghosts.ghosts| ==>
                ghosts.ghosts[i].enabled == (old(ghosts.ghosts[i].enabled) && ghosts.ghosts[i].state.IsEscaping())
      ensures scene == old(scene).GoToNext(ReturnToUpdating.Raw(), 1000)
    {
      ScoreGhost();
      Freeze();
      GoToNextSequence(ReturnToUpdating, 1000);
    }

    /** The ghost's popup, its points, and the doubled worth of the next ghost. */
    method ScoreGhost()
      requires ptsManager.Valid()
      modifies ptsManager`actors, ptsManager`doings, ptsManager`enabled, ptsManager.actors, ptsManager.doings,
               context`ghostPts, context`score, context`highScore, context`scoreExtendedPlayer, context`numberOfPlayers
      ensures ptsManager.Valid() && ptsManager.doings != []
      ensures var p := ptsManager.doings[|ptsManager.doings| - 1];
        && p.kind == old(context.ghostPts) && p.enabled && p.timer.currentTime == 1000
        && p.position == Placed(ghosts.collisionPosition.column, ghosts.collisionPosition.row,
                                ghosts.collisionPosition.dx, ghosts.collisionPosition.dy)
      ensures context.ghostPts == TwoTimes(old(context.ghostPts))
      ensures Book() == old(AddPoints(Book(), Score(context.ghostPts), context.demo))
    {
      var pts := context.ghostPts;
      ptsManager.Start(pts, ghosts.collisionPosition, 1000);
      context.ghostPts := TwoTimes(pts);
      AddScore(Score(pts));
    }

    /** Everything but the escaping ghosts stops. */
    method Freeze()
      requires ghosts.Valid()
      modifies player`enabled, specialTarget`enabled, ghosts.ghosts`enabled
      ensures !player.enabled && !specialTarget.enabled
      ensures forall i :: 0 <= i < |ghosts.ghosts| ==>
                ghosts.ghosts[i].enabled == (old(ghosts.ghosts[i].enabled) && ghosts.ghosts[i].state.IsEscaping())
    {
      player.Stop();
      specialTarget.enabled := false;
      ghosts.StopWithoutEscaping();
    }

    /** The pause after eating a ghost is over: everything moves again. */
    method SequenceReturnToUpdating()
      requires ghosts.Valid()
      modifies player`enabled, player`timerNotToEat, ghosts.ghosts`enabled, specialTarget`enabled, this`scene
      ensures player.enabled && specialTarget.enabled
      ensures player.timerNotToEat == old(player.timerNotToEat).Start()
      ensures forall i :: 0 <= i < |ghosts.ghosts| ==>
                ghosts.ghosts[i].enabled == (old(ghosts.ghosts[i].enabled) || !ghosts.ghosts[i].state.IsEscaping())
      ensures scene == old(scene).GoToNext(Updating.Raw(), 0)
    {
      player.Start();
      ghosts.StartWithoutEscaping();
      specialTarget.enabled := true;
      GoToNextSequence(Updating, 0);
    }

    /** Whether the actors should hold still: the scene is waiting to return to updating. */
    function IsSuspendUpdating(): (r: bool)
      reads this
      ensures r <==> StateOf(scene.next) == Some(ReturnToUpdating)
    {
      scene.next == ReturnToUpdating.Raw()
    }

    /** Before flashing: the special target and the popups go away and the flash counter is set. */
    method SequencePrepareFlashMaze()
      requires specialTarget.Valid() && ptsManager.Valid()
      modifies specialTarget`enabled, specialTarget`timer, specialTarget.grid.values,
               ptsManager`actors, ptsManager`doings, ptsManager`enabled, ptsManager.doings, this`blinkingTimer, this`scene
      ensures !specialTarget.enabled && ptsManager.doings == [] && !ptsManager.enabled
      ensures blinkingTimer == FLASH_FRAMES
      ensures scene == old(scene).GoToNext(-1, 0)
    {
      specialTarget.Stop();
      ptsManager.Stop();
      blinkingTimer := 104;
      scene := scene.GoToNext(-1, 0);
    }

    /**
     * One frame of the flashing maze: while the counter runs, redraw the
     * wall as FlashAt says and count down; then go on to the next round, or
     * to the intermission the round calls for. The next round's maze text
     * is src.
     */
    method SequenceFlashMaze(src: seq<string>) returns (flash: Option<WallColor>)
      requires grid.Valid() && |src| <= BG_HEIGHT - 3 && forall i :: 0 <= i < |src| ==> |src[i]| <= BG_WIDTH
      requires context.demo || context.round >= 0
      modifies this`blinkingTimer, this`scene, grid, grid.values, grid.attributes,
               context`round, context`numberOfFeeds, context`playerMiss, context`numberOfFeedsEatenByMiss,
               context`numberOfFeedsEaten, context`numberOfFeedsToAppearSpecialTarget, context`ghostPts,
               context`levelOfSpeed, context`timeWithPower, context`numberOfFeedsRemainingToSpurt,
               context`levelOfAppearance, context`kindOfSpecialTarget, context`timeNotToEat, context`intermission
      ensures old(blinkingTimer) > 0 ==>
                flash == FlashAt(old(blinkingTimer)) && blinkingTimer == old(blinkingTimer) - 1
                && scene == old(scene) && context.round == old(context.round)
      ensures old(blinkingTimer) <= 0 ==> flash == Option.None && blinkingTimer == old(blinkingTimer)
      ensures old(blinkingTimer) <= 0 && old(context.intermission) == 0 ==>
                context.round == old(context.round) + 1 && context.numberOfFeeds == CountFeeds(src)
                && context.numberOfFeedsEaten == 0 && scene == old(scene).GoToNext(Ready.Raw(), 0)
      ensures old(blinkingTimer) <= 0 && old(context.intermission) != 0 ==>
                context.round == old(context.round) && scene == old(scene).GoToNext(Intermission.Raw(), 0)
    {
      flash := Option.None;
      if blinkingTimer > 0 {
        flash := FlashAt(blinkingTimer);
        blinkingTimer := blinkingTimer - 1;
      } else {
        if context.intermission == 0 {
          PrepareNextRound(src);
        } else {
          GoToNextSequence(Intermission, 0);
        }
      }
    }

    /** The next round: its number, its counters and difficulty, a fresh maze from src. */
    method PrepareNextRound(src: seq<string>)
      requires grid.Valid() && |src| <= BG_HEIGHT - 3 && forall i :: 0 <= i < |src| ==> |src[i]| <= BG_WIDTH
      requires context.demo || context.round >= 0
      modifies this`scene, grid, grid.values, grid.attributes,
               context`round, context`numberOfFeeds, context`playerMiss, context`numberOfFeedsEatenByMiss,
               context`numberOfFeedsEaten, context`numberOfFeedsToAppearSpecialTarget, context`ghostPts,
               context`levelOfSpeed, context`timeWithPower, context`numberOfFeedsRemainingToSpurt,
               context`levelOfAppearance, context`kindOfSpecialTarget, context`timeNotToEat, context`intermission
      ensures grid.Valid()
      ensures context.round == old(context.round) + 1 && context.numberOfFeeds == CountFeeds(src)
      ensures context.numberOfFeedsEaten == 0 && context.numberOfFeedsToAppearSpecialTarget == 70
      ensures context.ghostPts == Pts200 && !context.playerMiss
      ensures scene == old(scene).GoToNext(Ready.Raw(), 0)
    {
      context.round := context.round + 1;
      context.ResetRound();
      context.numberOfFeeds := grid.SetMazeValuesAndAttributes(src);
      GoToNextSequence(Ready, 0);
    }

    /**
     * After a life is lost: the special target and the popups go away, the
     * ghost-release bypass starts, and one life is taken; with lives left
     * the game goes on from Ready, otherwise it is over after 2000 ms.
     */
    method SequencePlayerRestart()
      requires specialTarget.Valid() && ptsManager.Valid()
      modifies specialTarget`enabled, specialTarget`timer, specialTarget.grid.values,
               ptsManager`actors, ptsManager`doings, ptsManager`enabled, ptsManager.doings,
               context`numberOfFeedsEatenByMiss, context`playerMiss, context`numberOfPlayers, this`scene
      ensures !specialTarget.enabled && ptsManager.doings == [] && !ptsManager.enabled
      ensures context.playerMiss && context.numberOfFeedsEatenByMiss == 0
      ensures context.numberOfPlayers == old(context.numberOfPlayers) - 1
      ensures context.numberOfPlayers > 0 ==> scene == old(scene).GoToNext(Ready.Raw(), 0)
      ensures context.numberOfPlayers <= 0 ==> scene == old(scene).GoToNext(GameOver.Raw(), 2000)
    {
      specialTarget.Stop();
      ptsManager.Stop();
      context.SetPlayerMiss();
      context.numberOfPlayers := context.numberOfPlayers - 1;
      if context.numberOfPlayers > 0 {
        GoToNextSequence(Ready, 0);
      } else {
        GoToNextSequence(GameOver, 2000);
      }
    }
  }
}
