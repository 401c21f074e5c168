/** The bird (game.py `Bird`): a square of side birdSize at a fixed column,
    falling under semi-implicit gravity. A bird is a value here; its owner
    (the game or an evaluator) replaces it with the updated value each frame. */
module Birds {
  import opened GameConfig
  import opened Geometry

  /** Column, height (downwards), vertical velocity and pipes passed. */
  datatype Bird = Bird(x: int, y: real, velocity: real, score: int)

  /** A fresh bird: at (birdX, screenHeight // 2), at rest, score 0. The
      height is half the screen, rounded down, so strictly inside it. */
  function NewBird(cfg: Config): (r: Bird)
    requires cfg.Valid()
    ensures r.x == cfg.birdX && r.velocity == 0.0 && r.score == 0
    ensures 2.0 * r.y == cfg.screenHeight as real || 2.0 * r.y == (cfg.screenHeight - 1) as real
    ensures 0.0 < r.y < cfg.screenHeight as real
    ensures r.y == r.y.Floor as real
  {
    Bird(cfg.birdX, (cfg.screenHeight / 2) as real, 0.0, 0)
  }

  /** `Bird.update`: velocity first, then position with the new velocity. */
  function Fall(cfg: Config, b: Bird): (r: Bird)
    ensures r.velocity - b.velocity == cfg.gravity
    ensures r.y - b.y == r.velocity
    ensures r.x == b.x && r.score == b.score
  {
    var v := b.velocity + cfg.gravity;
    b.(velocity := v, y := b.y + v)
  }

  /** `Bird.jump`: the velocity becomes -jumpStrength, whatever it was. */
  function Jump(cfg: Config, b: Bird): (r: Bird)
    ensures r.velocity == -cfg.jumpStrength
    ensures r.x == b.x && r.y == b.y && r.score == b.score
  {
    b.(velocity := -cfg.jumpStrength)
  }

  /** One frame of a controlled bird: jump first if asked, then fall. */
  function Flap(cfg: Config, b: Bird, jump: bool): Bird {
    Fall(cfg, if jump then Jump(cfg, b) else b)
  }

  /** `Bird.get_rect`: the square at (x, int(y)). */
  function BirdRect(cfg: Config, b: Bird): (r: Rect)
    ensures r.left == b.x && r.width == cfg.birdSize && r.height == cfg.birdSize
    ensures b.y >= 0.0 ==> r.top as real <= b.y < r.top as real + 1.0
    ensures b.y < 0.0 ==> r.top as real - 1.0 < b.y <= r.top as real
  {
    Rect(b.x, Trunc(b.y), cfg.birdSize, cfg.birdSize)
  }

  /** The bird after `k` frames without a jump. */
  function FallN(cfg: Config, b: Bird, k: nat): Bird {
    if k == 0 then b else Fall(cfg, FallN(cfg, b, k - 1))
  }

  /** Closed form of k falls from (y0, v0): v = v0 + k*g and
      y = y0 + k*v0 + g*k*(k+1)/2; column and score are untouched. */
  lemma {:induction false} FallClosedForm(cfg: Config, b: Bird, k: nat)
    ensures FallN(cfg, b, k).velocity == b.velocity + (k as real) * cfg.gravity
    ensures FallN(cfg, b, k).y
            == b.y + (k as real) * b.velocity + cfg.gravity * (k as real) * (k as real + 1.0) / 2.0
    ensures FallN(cfg, b, k).x == b.x && FallN(cfg, b, k).score == b.score
  {
    if k > 0 {
      FallClosedForm(cfg, b, k - 1);
      var j := (k - 1) as real;
      var g := cfg.gravity;
      assert (k as real) == j + 1.0;
      assert b.y + j * b.velocity + g * j * (j + 1.0) / 2.0 + (b.velocity + (j + 1.0) * g)
          == b.y + (j + 1.0) * b.velocity + g * (j + 1.0) * (j + 2.0) / 2.0;
    }
  }

  /** The arc after a jump: k frames later the velocity is k*g - jumpStrength
      and the height is y0 - k*jumpStrength + g*k*(k+1)/2, whatever the
      velocity before the jump was. */
  lemma {:induction false} JumpArc(cfg: Config, b: Bird, k: nat)
    ensures FallN(cfg, Jump(cfg, b), k).velocity == (k as real) * cfg.gravity - cfg.jumpStrength
    ensures FallN(cfg, Jump(cfg, b), k).y
            == b.y - (k as real) * cfg.jumpStrength + cfg.gravity * (k as real) * (k as real + 1.0) / 2.0
  {
    FallClosedForm(cfg, Jump(cfg, b), k);
  }
}
