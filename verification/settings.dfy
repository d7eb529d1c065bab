/**
  The game's constants and their per-device selection. The desktop and
  tablet profiles share the keyboard speed curve; the mobile profile starts
  slower, speeds up more gently, needs more food per level and has a higher
  speed floor. Only the canvas size distinguishes tablet from desktop.
 */
module Settings {

  datatype Device = Desktop | Tablet | Mobile

  /** Side of one grid cell in canvas pixels. */
  const CellSize: int := 20
  const PointsPerFood: int := 10
  const PointsPerLevel: int := 100

  /** Tick interval, in milliseconds, at the start of a run. */
  function InitialSpeed(d: Device): int {
    if d == Mobile then 280 else 150
  }

  /** Milliseconds taken off the tick interval at each level-up. */
  function SpeedDecrement(d: Device): int {
    if d == Mobile then 12 else 10
  }

  /** Food eaten per level. */
  function LevelThreshold(d: Device): int {
    if d == Mobile then 7 else 5
  }

  /** The tick interval never drops below this. */
  function MinSpeed(d: Device): int {
    if d == Mobile then 80 else 50
  }

  /** Square canvas side, in pixels, chosen when the canvas is set up. */
  function CanvasSize(d: Device): int {
    match d
    case Mobile => 280
    case Tablet => 360
    case Desktop => 400
  }

  /** Number of whole cells along a canvas side (floor division). */
  function GridSide(canvasSize: int): (n: int)
    ensures CellSize * n <= canvasSize < CellSize * (n + 1)
  {
    canvasSize / CellSize
  }

  function GridWidth(d: Device): int {
    GridSide(CanvasSize(d))
  }

  function GridHeight(d: Device): int {
    GridSide(CanvasSize(d))
  }

  /** The constants of every profile are positive and fit together: the
      floor is below the starting speed and the board holds the initial
      3-cell snake. */
  lemma ProfilesWellFormed(d: Device)
    ensures LevelThreshold(d) > 0 && SpeedDecrement(d) > 0
    ensures 0 < MinSpeed(d) <= InitialSpeed(d)
    ensures GridWidth(d) >= 4 && GridHeight(d) >= 4
    ensures GridWidth(d) == (match d case Mobile => 14 case Tablet => 18 case Desktop => 20)
  {
  }
}
