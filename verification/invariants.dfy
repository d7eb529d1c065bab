/**
  What every game reachable from construction satisfies, and the proofs
  that each transition keeps it. The progression counters are tied to
  closed forms in the number of meals eaten:

    level = 1 + foodEaten div threshold
    score = 10 * foodEaten + 100 * (level - 1)
    speed = max(floor, initial - decrement * (level - 1))
 */
module Invariants {
  import opened Grid
  import opened Settings
  import opened Snake
  import opened Food
  import opened Game

  function LevelFor(d: Device, foodEaten: int): int {
    1 + foodEaten / LevelThreshold(d)
  }

  function ScoreFor(d: Device, foodEaten: int): int {
    PointsPerFood * foodEaten + PointsPerLevel * (LevelFor(d, foodEaten) - 1)
  }

  function SpeedFor(d: Device, level: int): int {
    Max(MinSpeed(d), InitialSpeed(d) - SpeedDecrement(d) * (level - 1))
  }

  /** Persisted high scores only ever go up, and the latest one written is
      the current high score. */
  predicate StoreConsistent(saved: seq<int>, highScore: int) {
    && (forall i, j :: 0 <= i < j < |saved| ==> saved[i] < saved[j])
    && (saved != [] ==> saved[|saved| - 1] == highScore)
  }

  /** The counters agree with the closed forms. */
  predicate ProgressConsistent(g: Game) {
    && g.foodEaten >= 0
    && g.level == LevelFor(g.device, g.foodEaten)
    && g.score == ScoreFor(g.device, g.foodEaten)
    && g.speed == SpeedFor(g.device, g.level)
  }

  /** The invariant of every reachable game. The body is well shaped and
      one segment longer than the meals eaten plus two; the food is on the
      board; the buffered direction never reverses the applied one; while
      the run is live the second segment lies directly behind the head. */
  predicate Inv(g: Game) {
    && ProgressConsistent(g)
    && BodyConsistent(g)
    && !IsReverse(g.nextDirection, g.direction)
    && NeckBehindHead(g)
    && StoreConsistent(g.savedHighScores, g.highScore)
  }

  /** The body has one segment per meal on top of the initial three, is well
      shaped, and the food is on the board. */
  predicate BodyConsistent(g: Game) {
    && g.foodEaten >= 0
    && |g.snake| == 3 + g.foodEaten
    && WellShaped(g.Width(), g.Height(), g.snake)
    && InGrid(g.Width(), g.Height(), g.food)
  }

  predicate NeckBehindHead(g: Game)
    requires |g.snake| >= 2
  {
    g.state != GameOver ==> g.snake[1] == Move(g.snake[0], g.direction.Opposite())
  }

  /** One more meal raises the closed-form level by one exactly when the new
      meal count is a multiple of the device's threshold. */
  lemma LevelForStep(d: Device, f: int)
    requires f >= 0
    ensures LevelFor(d, f + 1) == LevelFor(d, f) + (if (f + 1) % LevelThreshold(d) == 0 then 1 else 0)
  {
    if d == Mobile {
      assert LevelThreshold(d) == 7;
    } else {
      assert LevelThreshold(d) == 5;
    }
  }

  /** A level-up applied to a speed on the curve lands on the curve at the
      next level. */
  lemma SpeedForStep(d: Device, level: int)
    ensures SpeedFor(d, level + 1) == Max(MinSpeed(d), SpeedFor(d, level) - SpeedDecrement(d))
  {
  }

  /** The tick interval stays between the device's floor and its starting
      value, and never grows with the level. */
  lemma SpeedBounds(d: Device, level: int, level': int)
    requires 1 <= level <= level'
    ensures MinSpeed(d) <= SpeedFor(d, level') <= SpeedFor(d, level) <= InitialSpeed(d)
  {
  }

  /** On a consistent game the level is at least 1, so the tick interval is
      between the floor and the starting value. */
  lemma ProgressBounds(g: Game)
    requires ProgressConsistent(g)
    ensures g.level >= 1 && g.score >= 0
    ensures MinSpeed(g.device) <= g.speed <= InitialSpeed(g.device)
  {
    var t := LevelThreshold(g.device);
    assert t == 5 || t == 7;
    assert g.foodEaten / t >= 0;
    SpeedBounds(g.device, 1, g.level);
  }

  /** Eating keeps the counters on the closed forms. */
  lemma EatFoodKeepsProgress(g: Game, draws: seq<Cell>)
    requires |draws| >= MaxFoodAttempts && ProgressConsistent(g)
    ensures ProgressConsistent(EatFood(g, draws))
    ensures EatFood(g, draws).speed <= g.speed
  {
    var d := g.device;
    LevelForStep(d, g.foodEaten);
    SpeedForStep(d, g.level);
  }

  /** A fresh run sits at the start of the progression curve. */
  lemma ResetProgress(g: Game, draws: seq<Cell>)
    requires |draws| >= MaxFoodAttempts
    ensures ProgressConsistent(Reset(g, draws))
  {
    var d := g.device;
    assert LevelFor(d, 0) == 1 by {
      ProfilesWellFormed(d);
    }
    assert SpeedFor(d, 1) == InitialSpeed(d) by {
      ProfilesWellFormed(d);
    }
  }

  /** The initial body fits every device's board, and food lands on it. */
  lemma ResetBody(g: Game, draws: seq<Cell>)
    requires DrawsInGrid(g.Width(), g.Height(), draws)
    ensures BodyConsistent(Reset(g, draws))
  {
    var r := Reset(g, draws);
    PlaceFoodInGrid(g.Width(), g.Height(), r.snake, draws);
    ProfilesWellFormed(g.device);
  }

  lemma ResetNeck(g: Game, draws: seq<Cell>)
    requires |draws| >= MaxFoodAttempts
    ensures NeckBehindHead(Reset(g, draws))
  {
  }

  lemma ResetEstablishesInv(g: Game, draws: seq<Cell>)
    requires DrawsInGrid(g.Width(), g.Height(), draws) && StoreConsistent(g.savedHighScores, g.highScore)
    ensures Inv(Reset(g, draws))
  {
    var r := Reset(g, draws);
    ResetProgress(g, draws);
    ResetBody(g, draws);
    ResetNeck(g, draws);
  }

  lemma NewGameEstablishesInv(device: Device, storedHighScore: int, draws: seq<Cell>)
    requires DrawsInGrid(GridWidth(device), GridHeight(device), draws)
    ensures Inv(NewGame(device, storedHighScore, draws))
  {
    var blank := Game(device, Menu, [], Cell(0, 0), Right, Right, 0, 1, 0,
                      InitialSpeed(device), storedHighScore, 0, []);
    ResetEstablishesInv(blank, draws);
  }

  lemma StartKeepsInv(g: Game, now: int, draws: seq<Cell>)
    requires Inv(g) && DrawsInGrid(g.Width(), g.Height(), draws)
    ensures Inv(Start(g, now, draws))
  {
    if g.state == Menu || g.state == GameOver {
      ResetEstablishesInv(g, draws);
    }
  }

  /** Game over keeps every part of the invariant; the neck condition is no
      longer required once the run has ended. */
  lemma GameOverKeepsInv(g: Game)
    requires ProgressConsistent(g) && BodyConsistent(g) && StoreConsistent(g.savedHighScores, g.highScore)
    requires !IsReverse(g.nextDirection, g.direction)
    ensures Inv(GameOverTransition(g))
  {
    var r := GameOverTransition(g);
    var s := g.savedHighScores;
    if g.score > g.highScore {
      forall i, j | 0 <= i < j < |r.savedHighScores|
        ensures r.savedHighScores[i] < r.savedHighScores[j]
      {
        if j == |s| {
          assert i < |s|;
          if i < |s| - 1 {
            assert s[i] < s[|s| - 1];
          }
        }
      }
    }
  }

  /** Before the tick applies it, the buffered direction cannot take the
      head back onto the second segment: a live run never dies by
      reversing into itself. */
  lemma CandidateMissesNeck(g: Game)
    requires Inv(g) && g.state == Playing
    ensures Candidate(g) != g.snake[1]
  {
    MoveOntoNeckIsReversal(g.snake[0], g.direction, g.nextDirection);
  }

  lemma UpdateKeepsInv(g: Game, draws: seq<Cell>)
    requires Inv(g) && DrawsInGrid(g.Width(), g.Height(), draws)
    ensures Inv(Update(g, draws))
  {
    if g.state == Playing {
      var turned := g.(direction := g.nextDirection);
      var head := Candidate(g);
      if !InGrid(g.Width(), g.Height(), head) || head in g.snake {
        GameOverKeepsInv(turned);
      } else {
        MoveOppositeCancels(g.snake[0], g.nextDirection);
        if head == g.food {
          var grown := turned.(snake := Commit(g.snake, head, true));
          CommitKeepsShape(g.Width(), g.Height(), g.snake, head, true);
          EatFoodKeepsProgress(grown, draws);
          PlaceFoodInGrid(g.Width(), g.Height(), grown.snake, draws);
        } else {
          CommitKeepsShape(g.Width(), g.Height(), g.snake, head, false);
        }
      }
    }
  }

  lemma GameLoopKeepsInv(g: Game, now: int, draws: seq<Cell>)
    requires Inv(g) && DrawsInGrid(g.Width(), g.Height(), draws)
    ensures Inv(GameLoop(g, now, draws))
  {
    UpdateKeepsInv(g, draws);
  }

  lemma ChangeDirectionKeepsInv(g: Game, requested: Direction)
    requires Inv(g)
    ensures Inv(ChangeDirection(g, requested))
  {
  }

  lemma TogglePauseKeepsInv(g: Game, now: int)
    requires Inv(g)
    ensures Inv(Pause(g)) && Inv(Resume(g, now)) && Inv(TogglePause(g, now))
  {
  }
}
