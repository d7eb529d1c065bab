/**
  The game's simulation core as a pure state record and transition
  functions: the Menu/Playing/Paused/GameOver state machine, the buffered
  direction change, the tick with its wall and self collision checks, food
  consumption and level-ups, game over with the high-score update, and the
  frame callback's elapsed-time gate.
 */
module Game {
  import opened Grid
  import opened Settings
  import opened Snake
  import opened Food

  datatype State = Menu | Playing | Paused | GameOver

  /** One game instance. `lastTime` is the timestamp of the last tick, in
      milliseconds; `savedHighScores` records every value written to
      persistent storage, oldest first. */
  datatype Game = Game(
    device: Device,
    state: State,
    snake: seq<Cell>,
    food: Cell,
    direction: Direction,
    nextDirection: Direction,
    score: int,
    level: int,
    foodEaten: int,
    speed: int,
    highScore: int,
    lastTime: int,
    savedHighScores: seq<int>)
  {
    function Width(): int { GridWidth(device) }
    function Height(): int { GridHeight(device) }
  }

  function Max(a: int, b: int): int {
    if a >= b then a else b
  }

  /** Everything that makes up a run, plus the high score, agrees; only the
      state and the tick timestamp may differ. */
  predicate SameRun(a: Game, b: Game) {
    && a.device == b.device
    && a.snake == b.snake
    && a.food == b.food
    && a.direction == b.direction
    && a.nextDirection == b.nextDirection
    && a.score == b.score
    && a.level == b.level
    && a.foodEaten == b.foodEaten
    && a.speed == b.speed
    && a.highScore == b.highScore
    && a.savedHighScores == b.savedHighScores
  }

  /** The counters and the body of a run that has just begun. */
  predicate FreshRun(g: Game) {
    && g.score == 0
    && g.level == 1
    && g.foodEaten == 0
    && g.speed == InitialSpeed(g.device)
    && g.direction == Right
    && g.nextDirection == Right
    && |g.snake| == 3
    && g.snake[0] == Cell(g.Width() / 2, g.Height() / 2)
    && g.snake[1] == Move(g.snake[0], Left)
    && g.snake[2] == Move(g.snake[1], Left)
  }

  /** Starts a new run in place: counters, directions and body are
      reinitialised and food is placed around the new body. The state, the
      high score, its storage and the tick timestamp are left alone. */
  function Reset(g: Game, draws: seq<Cell>): (r: Game)
    requires |draws| >= MaxFoodAttempts
    ensures FreshRun(r)
    ensures r.food == PlaceFood(r.snake, draws)
    ensures r.device == g.device && r.state == g.state && r.lastTime == g.lastTime
    ensures r.highScore == g.highScore && r.savedHighScores == g.savedHighScores
  {
    var body := Initial(g.Width(), g.Height());
    g.(score := 0, level := 1, speed := InitialSpeed(g.device), foodEaten := 0,
       direction := Right, nextDirection := Right,
       snake := body, food := PlaceFood(body, draws))
  }

  /** A game as constructed: in the Menu with a freshly reset run and the
      high score loaded from storage (0 when nothing was stored). */
  function NewGame(device: Device, storedHighScore: int, draws: seq<Cell>): (r: Game)
    requires |draws| >= MaxFoodAttempts
    ensures r.state == Menu && FreshRun(r) && r.device == device
    ensures r.highScore == storedHighScore && r.savedHighScores == []
  {
    var blank := Game(device, Menu, [], Cell(0, 0), Right, Right, 0, 1, 0,
                      InitialSpeed(device), storedHighScore, 0, []);
    Reset(blank, draws)
  }

  /** Starts playing at time `now`. A new run begins only from the Menu or
      after a game over; from Playing or Paused the current run carries on. */
  function Start(g: Game, now: int, draws: seq<Cell>): (r: Game)
    requires |draws| >= MaxFoodAttempts
    ensures r.state == Playing && r.lastTime == now
    ensures g.state == Menu || g.state == GameOver ==>
              FreshRun(r) && r.highScore == g.highScore && r.savedHighScores == g.savedHighScores
    ensures g.state == Menu || g.state == GameOver ==>
              r.device == g.device && r.food == PlaceFood(r.snake, draws)
    ensures g.state == Playing || g.state == Paused ==> SameRun(r, g)
  {
    var g' := if g.state == Menu || g.state == GameOver then Reset(g, draws) else g;
    g'.(state := Playing, lastTime := now)
  }

  /** Pauses a game in play; in any other state nothing happens. */
  function Pause(g: Game): (r: Game)
    ensures SameRun(r, g) && r.lastTime == g.lastTime
    ensures r.state != Playing
    ensures r.state == Paused <==> g.state == Playing || g.state == Paused
    ensures g.state != Playing ==> r == g
  {
    if g.state == Playing then g.(state := Paused) else g
  }

  /** Resumes a paused game at time `now`, restarting the tick clock there;
      in any other state nothing happens. */
  function Resume(g: Game, now: int): (r: Game)
    ensures SameRun(r, g)
    ensures r.state != Paused
    ensures r.state == Playing <==> g.state == Playing || g.state == Paused
    ensures g.state != Paused ==> r == g
    ensures g.state == Paused ==> r.lastTime == now
  {
    if g.state == Paused then g.(state := Playing, lastTime := now) else g
  }

  function TogglePause(g: Game, now: int): (r: Game)
    ensures SameRun(r, g)
    ensures g.state == Playing ==> r.state == Paused
    ensures g.state == Paused ==> r.state == Playing && r.lastTime == now
    ensures g.state == Menu || g.state == GameOver ==> r == g
  {
    if g.state == Playing then Pause(g)
    else if g.state == Paused then Resume(g, now)
    else g
  }

  /** Ends the run. The high score becomes the larger of the old high score
      and the final score, and storage receives exactly one write, of the
      new value, precisely when the score beats the old high score. */
  function GameOverTransition(g: Game): (r: Game)
    ensures r.state == GameOver
    ensures r.highScore == Max(g.highScore, g.score)
    ensures g.score > g.highScore ==> r.savedHighScores == g.savedHighScores + [g.score]
    ensures g.score <= g.highScore ==> r.savedHighScores == g.savedHighScores
    ensures r.snake == g.snake && r.food == g.food && r.score == g.score
    ensures r.level == g.level && r.foodEaten == g.foodEaten && r.speed == g.speed
    ensures r.direction == g.direction && r.nextDirection == g.nextDirection
    ensures r.device == g.device && r.lastTime == g.lastTime
  {
    var g' := g.(state := GameOver);
    if g.score > g.highScore then
      g'.(highScore := g.score, savedHighScores := g.savedHighScores + [g.score])
    else
      g'
  }

  /** Buffers a requested direction for the next tick. The exact reversal of
      the direction applied on the last tick is ignored; the applied
      direction itself never changes here. */
  function ChangeDirection(g: Game, requested: Direction): (r: Game)
    ensures r.direction == g.direction
    ensures !IsReverse(r.nextDirection, r.direction) || r.nextDirection == g.nextDirection
    ensures IsReverse(requested, g.direction) ==> r == g
    ensures !IsReverse(requested, g.direction) ==> r == g.(nextDirection := requested)
  {
    if IsReverse(requested, g.direction) then g else g.(nextDirection := requested)
  }

  /** Level-up: one more level, the level bonus, and a shorter tick interval
      that stops at the device's floor. */
  function LevelUp(g: Game): (r: Game)
    ensures r.level == g.level + 1
    ensures r.score == g.score + PointsPerLevel
    ensures r.speed >= MinSpeed(g.device)
    ensures r.speed == MinSpeed(g.device) || r.speed == g.speed - SpeedDecrement(g.device)
    ensures g.speed >= MinSpeed(g.device) ==> r.speed <= g.speed
    ensures g.speed - SpeedDecrement(g.device) >= MinSpeed(g.device) ==>
              r.speed == g.speed - SpeedDecrement(g.device)
    ensures r.(level := g.level, score := g.score, speed := g.speed) == g
  {
    g.(level := g.level + 1,
       score := g.score + PointsPerLevel,
       speed := Max(MinSpeed(g.device), g.speed - SpeedDecrement(g.device)))
  }

  /** Food consumption after the grown body is in place: points for the
      food, a level-up every `LevelThreshold` meals counted over the whole
      run, then new food placed around the grown body. */
  function EatFood(g: Game, draws: seq<Cell>): (r: Game)
    requires |draws| >= MaxFoodAttempts
    ensures r.foodEaten == g.foodEaten + 1
    ensures r.snake == g.snake && r.food == PlaceFood(g.snake, draws)
    ensures r.level == g.level || r.level == g.level + 1
    ensures r.level == g.level + 1 <==> r.foodEaten % LevelThreshold(g.device) == 0
    ensures r.score == g.score + PointsPerFood + PointsPerLevel * (r.level - g.level)
    ensures r.speed == (if r.level == g.level + 1
                        then Max(MinSpeed(g.device), g.speed - SpeedDecrement(g.device))
                        else g.speed)
    ensures r.(foodEaten := g.foodEaten, score := g.score, level := g.level,
               speed := g.speed, food := g.food) == g
  {
    var fed := g.(score := g.score + PointsPerFood, foodEaten := g.foodEaten + 1);
    var leveled := if fed.foodEaten % LevelThreshold(g.device) == 0 then LevelUp(fed) else fed;
    leveled.(food := PlaceFood(leveled.snake, draws))
  }

  /** The cell the head moves to on the next tick: one step from the head
      along the buffered direction. */
  function Candidate(g: Game): Cell
    requires g.snake != []
  {
    Move(g.snake[0], g.nextDirection)
  }

  /** One simulation tick. Outside Playing nothing happens. Otherwise the
      buffered direction is applied and the candidate head computed; a head
      off the board or on any current segment, the tail included, ends the
      run; else the head is committed, growing the body when it lands on
      the food. */
  function Update(g: Game, draws: seq<Cell>): (r: Game)
    requires g.snake != [] && |draws| >= MaxFoodAttempts
    ensures g.state != Playing ==> r == g
    ensures g.state == Playing ==> r.direction == g.nextDirection && r.nextDirection == g.nextDirection
    ensures r.state == Playing || r.state == g.state || r.state == GameOver
    ensures r.device == g.device && r.lastTime == g.lastTime && r.highScore >= g.highScore
    ensures r.state != GameOver ==> r.highScore == g.highScore && r.savedHighScores == g.savedHighScores
  {
    if g.state != Playing then g
    else
      var turned := g.(direction := g.nextDirection);
      var head := Candidate(g);
      if !InGrid(g.Width(), g.Height(), head) then GameOverTransition(turned)
      else if IsSnakePosition(g.snake, head) then GameOverTransition(turned)
      else if head == g.food then EatFood(turned.(snake := Commit(g.snake, head, true)), draws)
      else turned.(snake := Commit(g.snake, head, false))
  }

  /** The frame callback at time `now`: a tick happens only once at least
      `speed` milliseconds have passed since the last one, and the tick
      timestamp then moves to `now`. */
  function GameLoop(g: Game, now: int, draws: seq<Cell>): (r: Game)
    requires g.snake != [] && |draws| >= MaxFoodAttempts
    ensures now - g.lastTime < g.speed ==> r == g
    ensures now - g.lastTime >= g.speed ==> r.lastTime == now
    ensures g.state != Playing ==> SameRun(r, g) && r.state == g.state
  {
    if now - g.lastTime >= g.speed then Update(g, draws).(lastTime := now) else g
  }
}
