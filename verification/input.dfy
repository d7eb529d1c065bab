/**
  The application's input dispatch: a pure map from the current game state
  and an input event to the one game command it issues. Keys are compared
  after lower-casing; direction input starts a game that is not running,
  steers one that is, and is ignored while paused.
 */
module Input {
  import opened Grid
  import opened Game

  datatype Command =
    | StartGame
    | TogglePauseGame
    | PauseGame
    | ChangeDirectionTo(d: Direction)
    | ToggleSound
    | NoCommand

  /** Events the application listens to: a key press (its key name), an
      on-screen direction pad press, the handheld Start and Select buttons,
      the restart, pause and sound buttons, and the page being hidden or
      shown. */
  datatype InputEvent =
    | KeyDown(key: string)
    | DirectionPad(d: Direction)
    | StartButton
    | SelectButton
    | RestartButton
    | PauseButton
    | SoundButton
    | VisibilityChange(hidden: bool)

  function LowerChar(c: char): char {
    if 'A' <= c <= 'Z' then (c as int + 32) as char else c
  }

  /** Lower-cases every ASCII capital letter, character by character. */
  function LowerCase(s: string): (r: string)
    ensures |r| == |s|
    ensures forall i :: 0 <= i < |s| ==> r[i] == LowerChar(s[i])
  {
    if s == [] then [] else [LowerChar(s[0])] + LowerCase(s[1..])
  }

  /** Lower-casing twice is lower-casing once. */
  lemma LowerCaseIdempotent(s: string)
    ensures LowerCase(LowerCase(s)) == LowerCase(s)
  {
    var once := LowerCase(s);
    assert forall i :: 0 <= i < |s| ==> LowerChar(once[i]) == once[i];
  }

  /** Direction input starts a game exactly in the Menu and after a game
      over, steers exactly while playing, and is dropped while paused. */
  function HandleDirectionInput(st: State, d: Direction): (r: Command)
    ensures r == StartGame <==> st == Menu || st == GameOver
    ensures r == ChangeDirectionTo(d) <==> st == Playing
    ensures r == NoCommand <==> st == Paused
  {
    if st == Menu || st == GameOver then StartGame
    else if st == Playing then ChangeDirectionTo(d)
    else assert st.Paused?; NoCommand
  }

  /** Space starts a game that is not running and otherwise toggles pause. */
  function HandleSpaceKey(st: State): (r: Command)
    ensures r == TogglePauseGame <==> st == Playing || st == Paused
    ensures r == StartGame <==> st == Menu || st == GameOver
  {
    if st == Menu || st == GameOver then StartGame
    else assert st.Playing? || st.Paused?; TogglePauseGame
  }

  /** The Start button tests the states the other way round from the space
      key, yet issues the same command in every state. */
  function HandleStartButton(st: State): (r: Command)
    ensures r == HandleSpaceKey(st)
    ensures r == TogglePauseGame <==> st == Playing || st == Paused
  {
    if st == Playing || st == Paused then TogglePauseGame else StartGame
  }

  /** Select starts the game from every state; from a pause that resumes. */
  function HandleSelectButton(st: State): (r: Command)
    ensures r == StartGame
  {
    StartGame
  }

  /** The key names the game binds, already lower-cased. */
  const ArrowUpKey: string := "arrowup"
  const ArrowDownKey: string := "arrowdown"
  const ArrowLeftKey: string := "arrowleft"
  const ArrowRightKey: string := "arrowright"
  const SpaceKey: string := " "
  const RestartKey: string := "r"
  const MuteKey: string := "m"

  predicate IsBoundKey(k: string) {
    k in {ArrowUpKey, ArrowDownKey, ArrowLeftKey, ArrowRightKey, SpaceKey, RestartKey, MuteKey}
  }

  /** The four arrow key names. */
  predicate IsArrowKey(k: string) {
    k in {ArrowUpKey, ArrowDownKey, ArrowLeftKey, ArrowRightKey}
  }

  /** The direction an arrow key name stands for. */
  function ArrowDirection(k: string): Direction
    requires IsArrowKey(k)
  {
    if k == ArrowUpKey then Up
    else if k == ArrowDownKey then Down
    else if k == ArrowLeftKey then Left
    else Right
  }

  /** Keys are matched after lower-casing. Every bound key issues its
      command; no command comes exactly from unbound keys and from arrows
      while paused. */
  function HandleKeyboard(st: State, key: string): (r: Command)
    ensures var k := LowerCase(key);
      && (IsArrowKey(k) ==> r == HandleDirectionInput(st, ArrowDirection(k)))
      && (k == SpaceKey ==> r == HandleSpaceKey(st))
      && (k == RestartKey ==> r == StartGame)
      && (k == MuteKey ==> r == ToggleSound)
      && (r == NoCommand <==> !IsBoundKey(k) || (IsArrowKey(k) && st == Paused))
  {
    var k := LowerCase(key);
    if k == ArrowUpKey then HandleDirectionInput(st, Up)
    else if k == ArrowDownKey then HandleDirectionInput(st, Down)
    else if k == ArrowLeftKey then HandleDirectionInput(st, Left)
    else if k == ArrowRightKey then HandleDirectionInput(st, Right)
    else if k == SpaceKey then HandleSpaceKey(st)
    else if k == RestartKey then StartGame
    else if k == MuteKey then ToggleSound
    else NoCommand
  }

  /** A hidden page pauses a game in play and nothing else. */
  function HandleVisibility(st: State, hidden: bool): (r: Command)
    ensures r == PauseGame <==> hidden && st == Playing
    ensures r == PauseGame || r == NoCommand
  {
    if hidden && st == Playing then PauseGame else NoCommand
  }

  /** The listeners' wiring. Steering happens only while playing and only
      from a direction pad press or an arrow key naming that direction; only
      hiding the page during play pauses outright; only 'm' and the sound
      button toggle sound. The restart button, Select and 'r' start in every
      state; the pad and Start start a game that is not running. Key presses
      go through the keyboard handler; the pause button toggles pause. */
  function Dispatch(st: State, ev: InputEvent): (r: Command)
    ensures r.ChangeDirectionTo? ==>
              && st == Playing
              && (ev == DirectionPad(r.d)
                  || (ev.KeyDown? && IsArrowKey(LowerCase(ev.key)) && ArrowDirection(LowerCase(ev.key)) == r.d))
    ensures r == PauseGame <==> ev == VisibilityChange(true) && st == Playing
    ensures r == ToggleSound <==> ev == SoundButton || (ev.KeyDown? && LowerCase(ev.key) == MuteKey)
    ensures ev == RestartButton || ev == SelectButton || (ev.KeyDown? && LowerCase(ev.key) == RestartKey) ==>
              r == StartGame
    ensures (st == Menu || st == GameOver) && (ev.DirectionPad? || ev == StartButton) ==> r == StartGame
    ensures ev.KeyDown? ==> r == HandleKeyboard(st, ev.key)
    ensures ev == PauseButton ==> r == TogglePauseGame
  {
    match ev
    case KeyDown(key) => HandleKeyboard(st, key)
    case DirectionPad(d) => HandleDirectionInput(st, d)
    case StartButton => HandleStartButton(st)
    case SelectButton => HandleSelectButton(st)
    case RestartButton => StartGame
    case PauseButton => TogglePauseGame
    case SoundButton => ToggleSound
    case VisibilityChange(hidden) => HandleVisibility(st, hidden)
  }

  /** Key handling does not depend on letter case. */
  lemma KeyboardIgnoresCase(st: State, key: string)
    ensures HandleKeyboard(st, key) == HandleKeyboard(st, LowerCase(key))
  {
    LowerCaseIdempotent(key);
  }
}
