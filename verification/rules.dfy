/**
  The rules of one tick and of the pause machinery, stated as lemmas about
  the transition functions: collisions end the run without touching the
  board, a successful tick slides or grows the body by one cell, speed and
  score move in one direction only, and pausing is idempotent.
 */
module Rules {
  import opened Grid
  import opened Settings
  import opened Snake
  import opened Food
  import opened Game
  import opened Invariants

  /** The tick's two fatal conditions. */
  predicate Collides(g: Game)
    requires g.snake != []
  {
    !InGrid(g.Width(), g.Height(), Candidate(g)) || Candidate(g) in g.snake
  }

  /** A tick ends the run exactly when the game was playing and the
      candidate head hits a wall or the body. */
  lemma UpdateEndsRunIff(g: Game, draws: seq<Cell>)
    requires g.snake != [] && |draws| >= MaxFoodAttempts && g.state != GameOver
    ensures Update(g, draws).state == GameOver <==> g.state == Playing && Collides(g)
  {
  }

  /** A collision, with a wall or with any segment, ends the run and leaves
      body, food and score as they were; only the applied direction has
      already taken the buffered value, and the high score is settled. */
  lemma CollisionFreezesBoard(g: Game, draws: seq<Cell>)
    requires g.snake != [] && |draws| >= MaxFoodAttempts
    requires g.state == Playing && Collides(g)
    ensures var r := Update(g, draws);
      && r.state == GameOver
      && r.snake == g.snake && r.food == g.food && r.score == g.score
      && r.level == g.level && r.foodEaten == g.foodEaten && r.speed == g.speed
      && r.direction == g.nextDirection
      && r.highScore == Max(g.highScore, g.score)
  {
  }

  /** Collision is checked against the body before the tail moves: a head
      landing where the tail is now ends the run even though that cell
      would have been vacated by this very tick. */
  lemma TailCellIsCollision(g: Game, draws: seq<Cell>)
    requires g.snake != [] && |draws| >= MaxFoodAttempts && g.state == Playing
    requires Candidate(g) == g.snake[|g.snake| - 1]
    ensures Update(g, draws).state == GameOver
    ensures Update(g, draws).snake == g.snake
  {
    assert Candidate(g) in g.snake;
  }

  /** A tick without collision moves the head one cell in the applied
      direction. Without food the rest of the body follows and the tail
      cell is dropped; on the food the whole old body stays, one meal is
      counted and the score rises. */
  lemma SuccessfulTickMoves(g: Game, draws: seq<Cell>)
    requires g.snake != [] && |draws| >= MaxFoodAttempts
    requires g.state == Playing && !Collides(g)
    ensures var r := Update(g, draws);
      var ate := Candidate(g) == g.food;
      && r.state == Playing
      && r.direction == g.nextDirection
      && r.snake[0] == Move(g.snake[0], r.direction)
      && |r.snake| == |g.snake| + (if ate then 1 else 0)
      && r.snake[1..] == (if ate then g.snake else g.snake[..|g.snake| - 1])
      && r.foodEaten == g.foodEaten + (if ate then 1 else 0)
      && (ate ==> r.score > g.score && r.food == PlaceFood(r.snake, draws))
      && (!ate ==> r.score == g.score && r.food == g.food && r.speed == g.speed)
  {
  }

  /** New food is drawn around the body that already holds the new head:
      whenever one of the allowed draws is free of that body, the food is
      neither on the new head nor anywhere else on the snake. */
  lemma FoodAvoidsGrownBody(g: Game, draws: seq<Cell>, j: nat)
    requires g.snake != [] && |draws| >= MaxFoodAttempts
    requires g.state == Playing && !Collides(g) && Candidate(g) == g.food
    requires j < MaxFoodAttempts && draws[j] !in Commit(g.snake, Candidate(g), true)
    ensures Update(g, draws).food !in Update(g, draws).snake
    ensures Update(g, draws).food != Update(g, draws).snake[0]
  {
    PlaceFoodAvoidsSnake(Commit(g.snake, Candidate(g), true), draws, j);
  }

  /** On reachable games the tick interval never grows and never drops below
      the floor, and score and level never fall. */
  lemma UpdateMonotone(g: Game, draws: seq<Cell>)
    requires Inv(g) && |draws| >= MaxFoodAttempts
    ensures var r := Update(g, draws);
      && MinSpeed(g.device) <= r.speed <= g.speed
      && r.score >= g.score && r.level >= g.level
  {
    SpeedBounds(g.device, 1, g.level);
    if g.state == Playing && !Collides(g) && Candidate(g) == g.food {
      var grown := g.(direction := g.nextDirection, snake := Commit(g.snake, Candidate(g), true));
      EatFoodKeepsProgress(grown, draws);
      SpeedBounds(g.device, 1, EatFood(grown, draws).level);
    }
  }

  /** Consecutive applied directions are never opposite: the direction a
      tick applies never reverses the one applied on the tick before. */
  lemma AppliedDirectionNeverReverses(g: Game, draws: seq<Cell>)
    requires Inv(g) && |draws| >= MaxFoodAttempts
    ensures !IsReverse(Update(g, draws).direction, g.direction)
  {
  }

  /** The frame callback ticks only when enough time has passed. */
  lemma GameLoopGate(g: Game, now: int, draws: seq<Cell>)
    requires g.snake != [] && |draws| >= MaxFoodAttempts
    ensures now - g.lastTime >= g.speed ==> GameLoop(g, now, draws) == Update(g, draws).(lastTime := now)
    ensures now - g.lastTime < g.speed ==> GameLoop(g, now, draws) == g
  {
  }

  /** The loop iteration that starting the game runs at once, at the same
      timestamp, never ticks: the interval is positive on reachable games. */
  lemma StartDoesNotTickAtOnce(g: Game, now: int, draws: seq<Cell>, draws': seq<Cell>)
    requires Inv(g) && DrawsInGrid(g.Width(), g.Height(), draws) && |draws'| >= MaxFoodAttempts
    ensures GameLoop(Start(g, now, draws), now, draws') == Start(g, now, draws)
  {
    StartKeepsInv(g, now, draws);
    var s := Start(g, now, draws);
    SpeedBounds(s.device, 1, s.level);
    ProfilesWellFormed(s.device);
  }

  /** Pausing twice is pausing once. */
  lemma PauseIdempotent(g: Game)
    ensures Pause(Pause(g)) == Pause(g)
  {
  }

  /** Toggling pause twice from a live state returns to that state with the
      run untouched. */
  lemma ToggleTwiceRestores(g: Game, t1: int, t2: int)
    requires g.state == Playing || g.state == Paused
    ensures TogglePause(TogglePause(g, t1), t2).state == g.state
    ensures SameRun(TogglePause(TogglePause(g, t1), t2), g)
  {
  }

  /** Restarting from a pause resumes the same run instead of beginning a
      new one. */
  lemma StartFromPausedResumes(g: Game, now: int, draws: seq<Cell>)
    requires g.state == Paused && |draws| >= MaxFoodAttempts
    ensures Start(g, now, draws) == Resume(g, now)
  {
  }
}
