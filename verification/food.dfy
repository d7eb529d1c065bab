/**
  Food placement by bounded rejection sampling. The random source is an
  oracle: a sequence of candidate cells, one per draw, of which at most
  `MaxFoodAttempts` are consumed.
 */
module Food {
  import opened Grid
  import opened Snake

  const MaxFoodAttempts: int := 100

  /** The oracle's contract for one placement: enough candidates, each drawn
      from the inclusive ranges [0, width - 1] x [0, height - 1]. */
  predicate DrawsInGrid(width: int, height: int, draws: seq<Cell>) {
    |draws| >= MaxFoodAttempts && forall i :: 0 <= i < |draws| ==> InGrid(width, height, draws[i])
  }

  /** Index of the kept candidate when sampling starts at draw `i`: the first
      candidate not on the snake, or the last allowed one when every earlier
      candidate hit the snake. */
  function FoodIndexFrom(snake: seq<Cell>, draws: seq<Cell>, i: nat): (k: nat)
    requires i < MaxFoodAttempts <= |draws|
    ensures i <= k < MaxFoodAttempts
    ensures forall j :: i <= j < k ==> draws[j] in snake
    ensures draws[k] !in snake || k == MaxFoodAttempts - 1
    decreases MaxFoodAttempts - i
  {
    if !IsSnakePosition(snake, draws[i]) || i + 1 >= MaxFoodAttempts then i
    else FoodIndexFrom(snake, draws, i + 1)
  }

  function FoodIndex(snake: seq<Cell>, draws: seq<Cell>): (k: nat)
    requires |draws| >= MaxFoodAttempts
    ensures k < MaxFoodAttempts
  {
    FoodIndexFrom(snake, draws, 0)
  }

  /** The cell the game places food on: one of the allowed draws, every
      earlier one of which hit the snake, and itself free unless it is the
      last allowed draw. */
  function PlaceFood(snake: seq<Cell>, draws: seq<Cell>): (r: Cell)
    requires |draws| >= MaxFoodAttempts
    ensures exists k :: 0 <= k < MaxFoodAttempts && r == draws[k]
              && (forall j :: 0 <= j < k ==> draws[j] in snake)
              && (r !in snake || k == MaxFoodAttempts - 1)
  {
    draws[FoodIndex(snake, draws)]
  }

  /** The stopping rule pins the kept draw down uniquely: any index before
      which every draw hit the snake, and which is free or the last allowed,
      is the one `FoodIndex` picks. */
  lemma FoodIndexUnique(snake: seq<Cell>, draws: seq<Cell>, k: nat)
    requires |draws| >= MaxFoodAttempts && k < MaxFoodAttempts
    requires forall j :: 0 <= j < k ==> draws[j] in snake
    requires draws[k] !in snake || k == MaxFoodAttempts - 1
    ensures k == FoodIndex(snake, draws)
  {
  }

  /** Food lands on the board whenever the oracle keeps to its ranges. */
  lemma PlaceFoodInGrid(width: int, height: int, snake: seq<Cell>, draws: seq<Cell>)
    requires DrawsInGrid(width, height, draws)
    ensures InGrid(width, height, PlaceFood(snake, draws))
  {
  }

  /** If any of the allowed draws misses the snake, the food misses it. */
  lemma PlaceFoodAvoidsSnake(snake: seq<Cell>, draws: seq<Cell>, j: nat)
    requires |draws| >= MaxFoodAttempts && j < MaxFoodAttempts && draws[j] !in snake
    ensures PlaceFood(snake, draws) !in snake
  {
  }

  /** When all allowed draws hit the snake, the last one is kept anyway and
      the food overlaps the body. */
  lemma PlaceFoodExhausted(snake: seq<Cell>, draws: seq<Cell>)
    requires |draws| >= MaxFoodAttempts
    requires forall j :: 0 <= j < MaxFoodAttempts ==> draws[j] in snake
    ensures PlaceFood(snake, draws) == draws[MaxFoodAttempts - 1]
    ensures PlaceFood(snake, draws) in snake
  {
    var k := FoodIndex(snake, draws);
    assert draws[k] in snake;
  }

  /** The sampling loop as the game runs it: draw, count the attempt, and go
      on while the candidate is on the snake and attempts remain. */
  method GenerateFood(snake: seq<Cell>, draws: seq<Cell>) returns (food: Cell, attempts: nat)
    requires |draws| >= MaxFoodAttempts
    ensures 1 <= attempts <= MaxFoodAttempts
    ensures food == draws[attempts - 1]
    ensures forall j :: 0 <= j < attempts - 1 ==> draws[j] in snake
    ensures food !in snake || attempts == MaxFoodAttempts
    ensures food == PlaceFood(snake, draws)
  {
    food := draws[0];
    attempts := 1;
    while IsSnakePosition(snake, food) && attempts < MaxFoodAttempts
      invariant 1 <= attempts <= MaxFoodAttempts
      invariant food == draws[attempts - 1]
      invariant forall j :: 0 <= j < attempts - 1 ==> draws[j] in snake
      decreases MaxFoodAttempts - attempts
    {
      food := draws[attempts];
      attempts := attempts + 1;
    }
    FoodIndexUnique(snake, draws, attempts - 1);
  }
}
