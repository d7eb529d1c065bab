/**
  The application loop put together: each input event is dispatched to a
  command and the command applied to the game; frames drive the time-gated
  tick. Runs of events and frames from a newly constructed game keep the
  invariant, and the high score and its storage only ever grow.
 */
module App {
  import opened Grid
  import opened Settings
  import opened Snake
  import opened Food
  import opened Game
  import opened Invariants
  import opened Input

  /** Carries out a command at time `now`; `draws` feeds food placement when
      the command starts a new run. The sound toggle leaves the game alone. */
  function Apply(g: Game, cmd: Command, now: int, draws: seq<Cell>): (r: Game)
    requires |draws| >= MaxFoodAttempts
    ensures cmd == ToggleSound || cmd == NoCommand ==> r == g
    ensures cmd == StartGame ==> r.state == Playing && r.lastTime == now
    ensures cmd.ChangeDirectionTo? ==> r.direction == g.direction && r.state == g.state && SameRun(r, g.(nextDirection := r.nextDirection))
    ensures cmd == PauseGame ==> r.state != Playing && SameRun(r, g)
    ensures cmd == TogglePauseGame ==> SameRun(r, g)
    ensures r.highScore == g.highScore && r.savedHighScores == g.savedHighScores
  {
    match cmd
    case StartGame => Start(g, now, draws)
    case TogglePauseGame => TogglePause(g, now)
    case PauseGame => Pause(g)
    case ChangeDirectionTo(d) => ChangeDirection(g, d)
    case ToggleSound => g
    case NoCommand => g
  }

  function HandleInput(g: Game, ev: InputEvent, now: int, draws: seq<Cell>): Game
    requires |draws| >= MaxFoodAttempts
  {
    Apply(g, Dispatch(g.state, ev), now, draws)
  }

  /** Input never touches the board except by beginning a fresh run from the
      Menu or after a game over; the high score is never changed by input. */
  lemma InputKeepsRunOrStartsFresh(g: Game, ev: InputEvent, now: int, draws: seq<Cell>)
    requires |draws| >= MaxFoodAttempts
    ensures var r := HandleInput(g, ev, now, draws);
      && r.highScore == g.highScore && r.savedHighScores == g.savedHighScores
      && ((r.snake == g.snake && r.score == g.score && r.food == g.food)
          || ((g.state == Menu || g.state == GameOver) && r.state == Playing && FreshRun(r)))
  {
  }

  lemma InputKeepsInv(g: Game, ev: InputEvent, now: int, draws: seq<Cell>)
    requires Inv(g) && DrawsInGrid(g.Width(), g.Height(), draws)
    ensures Inv(HandleInput(g, ev, now, draws))
  {
    TogglePauseKeepsInv(g, now);
    match Dispatch(g.state, ev)
    case StartGame => StartKeepsInv(g, now, draws);
    case ChangeDirectionTo(d) => ChangeDirectionKeepsInv(g, d);
    case _ =>
  }

  /** An arrow key, in any letter case, after a game over begins a new run
      that keeps the high score. */
  lemma ArrowKeyAfterGameOverStartsFresh(g: Game, key: string, now: int, draws: seq<Cell>)
    requires g.state == GameOver && IsArrowKey(LowerCase(key)) && |draws| >= MaxFoodAttempts
    ensures var r := HandleInput(g, KeyDown(key), now, draws);
      r.state == Playing && FreshRun(r) && r.highScore == g.highScore
  {
    assert HandleKeyboard(g.state, key) == StartGame;
  }

  /** While paused, direction input changes nothing at all. */
  lemma DirectionWhilePausedIgnored(g: Game, d: Direction, now: int, draws: seq<Cell>)
    requires g.state == Paused && |draws| >= MaxFoodAttempts
    ensures HandleInput(g, DirectionPad(d), now, draws) == g
  {
  }

  /** While playing, direction input only buffers the turn: the applied
      direction and everything else stay until the next tick. */
  lemma DirectionWhilePlayingBuffers(g: Game, d: Direction, now: int, draws: seq<Cell>)
    requires g.state == Playing && |draws| >= MaxFoodAttempts
    ensures var r := HandleInput(g, DirectionPad(d), now, draws);
      && r.state == Playing && r.direction == g.direction
      && r.snake == g.snake && r.score == g.score
      && (r.nextDirection == d <==> !IsReverse(d, g.direction) || d == g.nextDirection)
  {
  }

  /** The restart button, the 'r' key and Select all call start, so from a
      pause they resume the same run rather than begin a new one. */
  lemma RestartWhilePausedResumes(g: Game, ev: InputEvent, now: int, draws: seq<Cell>)
    requires g.state == Paused && |draws| >= MaxFoodAttempts
    requires ev == RestartButton || ev == SelectButton || (ev.KeyDown? && LowerCase(ev.key) == RestartKey)
    ensures var r := HandleInput(g, ev, now, draws);
      r == Resume(g, now) && r.state == Playing && SameRun(r, g)
  {
  }

  /** A key press reaches the game through the keyboard handler: an arrow
      steers a game in play, is dropped while paused, and unbound keys and
      the mute key leave the game as it is. */
  lemma KeyDownDispatch(g: Game, key: string, now: int, draws: seq<Cell>)
    requires |draws| >= MaxFoodAttempts
    ensures var k := LowerCase(key);
      var r := HandleInput(g, KeyDown(key), now, draws);
      && (IsArrowKey(k) && g.state == Playing ==> r == ChangeDirection(g, ArrowDirection(k)))
      && (IsArrowKey(k) && g.state == Paused ==> r == g)
      && (!IsBoundKey(k) || k == MuteKey ==> r == g)
  {
    assert Dispatch(g.state, KeyDown(key)) == HandleKeyboard(g.state, key);
  }

  /** The pause button toggles pause in every state; the sound button
      leaves the game as it is. */
  lemma PauseAndSoundButtons(g: Game, now: int, draws: seq<Cell>)
    requires |draws| >= MaxFoodAttempts
    ensures HandleInput(g, PauseButton, now, draws) == TogglePause(g, now)
    ensures HandleInput(g, SoundButton, now, draws) == g
  {
    assert Dispatch(g.state, PauseButton) == TogglePauseGame;
    assert Dispatch(g.state, SoundButton) == ToggleSound;
  }

  /** The restart button, Select and the 'r' key, in any letter case, call
      start in every state. */
  lemma RestartCallsStart(g: Game, ev: InputEvent, now: int, draws: seq<Cell>)
    requires |draws| >= MaxFoodAttempts
    requires ev == RestartButton || ev == SelectButton || (ev.KeyDown? && LowerCase(ev.key) == RestartKey)
    ensures HandleInput(g, ev, now, draws) == Start(g, now, draws)
  {
    assert Dispatch(g.state, ev) == StartGame;
  }

  /** From the Menu or after a game over, every input that starts the game
      begins a fresh run in play and keeps the high score: a pad press, the
      Start, Select or restart button, or an arrow, space or 'r' key. */
  lemma StartEventsBeginFreshRun(g: Game, ev: InputEvent, now: int, draws: seq<Cell>)
    requires (g.state == Menu || g.state == GameOver) && |draws| >= MaxFoodAttempts
    requires || ev.DirectionPad? || ev == StartButton || ev == SelectButton || ev == RestartButton
             || (ev.KeyDown? && (IsArrowKey(LowerCase(ev.key)) || LowerCase(ev.key) == SpaceKey
                                 || LowerCase(ev.key) == RestartKey))
    ensures var r := HandleInput(g, ev, now, draws);
      && r == Start(g, now, draws)
      && r.state == Playing && FreshRun(r)
      && r.highScore == g.highScore && r.savedHighScores == g.savedHighScores
  {
    assert Dispatch(g.state, ev) == StartGame;
  }

  /** Space, and the Start button, pause a game in play and resume a paused
      one; pressing twice returns to the same state with the run intact. */
  lemma SpaceTogglesPause(g: Game, ev: InputEvent, t1: int, t2: int, draws: seq<Cell>)
    requires g.state == Playing || g.state == Paused
    requires ev == StartButton || (ev.KeyDown? && LowerCase(ev.key) == SpaceKey)
    requires |draws| >= MaxFoodAttempts
    ensures var r := HandleInput(g, ev, t1, draws);
      && (r.state == Playing <==> g.state == Paused)
      && SameRun(r, g)
      && HandleInput(r, ev, t2, draws).state == g.state
      && SameRun(HandleInput(r, ev, t2, draws), g)
  {
  }

  /** Hiding the page pauses a game in play; in any other state, and when
      the page is shown again, nothing changes. */
  lemma HiddenPagePausesOnlyPlaying(g: Game, hidden: bool, now: int, draws: seq<Cell>)
    requires |draws| >= MaxFoodAttempts
    ensures var r := HandleInput(g, VisibilityChange(hidden), now, draws);
      && (r.state == Paused <==> (hidden && g.state == Playing) || g.state == Paused)
      && (!(hidden && g.state == Playing) ==> r == g)
      && SameRun(r, g)
  {
    var cmd := HandleVisibility(g.state, hidden);
    assert Dispatch(g.state, VisibilityChange(hidden)) == cmd;
    if hidden && g.state == Playing {
      assert cmd == PauseGame;
    } else {
      assert cmd == NoCommand;
    }
  }

  /** Something that happens to the game: an input event at a time, or an
      animation frame at a time. Each carries the random draws that food
      placement may consume. */
  datatype Action =
    | InputAt(ev: InputEvent, now: int, draws: seq<Cell>)
    | FrameAt(now: int, draws: seq<Cell>)

  /** The random oracle's contract for one action. */
  predicate ActionOk(g: Game, a: Action) {
    DrawsInGrid(g.Width(), g.Height(), a.draws)
  }

  function Step(g: Game, a: Action): (r: Game)
    requires Inv(g) && ActionOk(g, a)
    ensures Inv(r) && r.device == g.device
    ensures r.highScore >= g.highScore
    ensures g.savedHighScores <= r.savedHighScores
  {
    match a
    case InputAt(ev, now, draws) =>
      InputKeepsInv(g, ev, now, draws);
      InputKeepsRunOrStartsFresh(g, ev, now, draws);
      HandleInput(g, ev, now, draws)
    case FrameAt(now, draws) =>
      GameLoopKeepsInv(g, now, draws);
      GameLoop(g, now, draws)
  }

  /** Every action's draws keep to the board of `device`. */
  predicate ActionsOk(device: Device, actions: seq<Action>) {
    forall i :: 0 <= i < |actions| ==> DrawsInGrid(GridWidth(device), GridHeight(device), actions[i].draws)
  }

  /** Plays a sequence of actions. The invariant holds at the end, the high
      score has not dropped, and storage has only been appended to. */
  function Run(g: Game, actions: seq<Action>): (r: Game)
    requires Inv(g) && ActionsOk(g.device, actions)
    ensures Inv(r) && r.device == g.device
    ensures r.highScore >= g.highScore
    ensures g.savedHighScores <= r.savedHighScores
    decreases |actions|
  {
    if actions == [] then g
    else Run(Step(g, actions[0]), actions[1..])
  }

  /** The game the application constructs at start-up: in the Menu, with
      the stored high score, and already satisfying the invariant. */
  function Launch(device: Device, stored: int, draws: seq<Cell>): (g: Game)
    requires DrawsInGrid(GridWidth(device), GridHeight(device), draws)
    ensures Inv(g) && g.state == Menu && g.device == device
    ensures g.highScore == stored && g.savedHighScores == []
  {
    NewGameEstablishesInv(device, stored, draws);
    NewGame(device, stored, draws)
  }

  /** What the invariant says about one game of `device` in plain terms. */
  lemma InvFacts(device: Device, g: Game)
    requires Inv(g) && g.device == device
    ensures Distinct(g.snake) && |g.snake| == 3 + g.foodEaten
    ensures AllInGrid(GridWidth(device), GridHeight(device), g.snake)
    ensures MinSpeed(device) <= g.speed <= InitialSpeed(device)
  {
    assert BodyConsistent(g);
    ProgressBounds(g);
  }

  /** The game reached by playing `actions` from start-up. It keeps the
      invariant: a body of distinct, in-bounds, edge-connected cells of
      length 3 + foodEaten, the counters on their closed forms, the tick
      interval between floor and start value, and a high score at least the
      stored one. */
  function Reached(device: Device, stored: int, draws: seq<Cell>, actions: seq<Action>): (r: Game)
    requires DrawsInGrid(GridWidth(device), GridHeight(device), draws)
    requires ActionsOk(device, actions)
    ensures Inv(r) && r.device == device
    ensures Distinct(r.snake) && |r.snake| == 3 + r.foodEaten
    ensures AllInGrid(GridWidth(device), GridHeight(device), r.snake)
    ensures MinSpeed(device) <= r.speed <= InitialSpeed(device)
    ensures r.highScore >= stored
  {
    var g := Run(Launch(device, stored, draws), actions);
    InvFacts(device, g);
    g
  }
}
