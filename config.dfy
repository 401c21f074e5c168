/** The read-only parameters of the game (the `config` module the game imports).
    Every operation of the model takes them as an explicit value. */
module GameConfig {

  /** Screen, bird and pipe dimensions, and the physics constants.
      Sizes are whole pixels; gravity, jump strength and pipe speed may be fractional. */
  datatype Config = Config(
    screenWidth: int,
    screenHeight: int,
    baseHeight: int,
    birdX: int,
    birdSize: int,
    gravity: real,
    jumpStrength: real,
    pipeSpeed: real,
    pipeGap: int,
    pipeWidth: int)
  {
    /** Positive dimensions and constants, and a screen tall enough for the
        pipe-height range [100, screenHeight - pipeGap - 100] to be non-empty
        (otherwise drawing a pipe height fails at start-up). */
    predicate Valid() {
      && screenWidth > 0 && screenHeight > 0 && baseHeight > 0
      && birdX > 0 && birdSize > 0
      && gravity > 0.0 && jumpStrength > 0.0 && pipeSpeed > 0.0
      && pipeGap > 0 && pipeWidth > 0
      && screenHeight - pipeGap - 100 >= 100
    }

    /** The range `random.randint(100, screenHeight - pipeGap - 100)` draws a pipe height from. */
    predicate HeightOk(h: int) {
      100 <= h <= screenHeight - pipeGap - 100
    }
  }
}
