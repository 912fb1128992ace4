/**
 The world state of the side-scrolling game: the bird, the list of pipes, the
 frame counter, score and level, the two phase flags and the best score, with
 the constants the game rules use.
 */
module GameState {

  /** The conventional Some/None wrapper; used for the best score read from the
      browser's storage, which may be missing. */
  datatype Option<T> = None | Some(value: T)

  /** Canvas size in pixels. It is read afresh by every operation, because the
      canvas may be resized while a run is in progress. */
  datatype Screen = Screen(width: nat, height: nat)

  const Radius: real := 20.0
  const Gravity: real := 0.5
  const Lift: real := -8.0

  const PipeWidth: real := 60.0
  /** A pipe is spawned on every frame that is a multiple of this. */
  const SpawnInterval: nat := 90
  const BaseGap: nat := 150
  const GapShrink: nat := 10
  const MinGap: nat := 90
  const BaseSpeed: nat := 3
  /** The level goes up each time the score reaches a multiple of this. */
  const PointsPerLevel: nat := 10

  /** The bird's centre and vertical velocity; its x never changes during a run. */
  datatype Bird = Bird(x: real, y: real, velocity: real)

  /** A pipe pair: the gap runs from `top` down to `bottom`. */
  datatype Pipe = Pipe(x: real, width: real, top: real, bottom: real, speed: real, passed: bool)

  datatype World = World(
    bird: Bird,
    pipes: seq<Pipe>,
    frame: nat,
    score: nat,
    level: nat,
    gameOver: bool,
    awaitingStart: bool,
    best: nat)

  /** The level a given score should be at: one more than the completed tens. */
  function LevelFor(score: nat): nat {
    1 + score / PointsPerLevel
  }

  /** Height of the gap of a pipe spawned at `level`: shrinks by ten per level,
      but never below the minimum. */
  function Gap(level: nat): (g: nat)
    ensures g >= MinGap
    ensures level >= 1 ==> g <= BaseGap - GapShrink
    ensures level <= 6 ==> g == BaseGap - level * GapShrink
    ensures level >= 6 ==> g == MinGap
  {
    if BaseGap - level * GapShrink > MinGap then BaseGap - level * GapShrink else MinGap
  }

  /** The shape every pipe keeps while it is on screen during a run at `level`. */
  predicate WellShaped(p: Pipe, level: nat) {
    && p.width == PipeWidth
    && MinGap as real <= p.bottom - p.top <= (BaseGap - GapShrink) as real
    && (BaseSpeed + 1) as real <= p.speed <= (BaseSpeed + level) as real
  }

  /** The world invariant: the level follows the score, and every pipe is well shaped. */
  predicate Valid(w: World) {
    && w.level == LevelFor(w.score)
    && forall i :: 0 <= i < |w.pipes| ==> WellShaped(w.pipes[i], w.level)
  }
}
