/** The two scrolling layers of the world: the background image and the
    ground strip (`Background` and `Base`). Each keeps a horizontal offset that
    moves left every frame and jumps back to 0 once a whole screen width has
    scrolled by. */
module Scrolling {
  import opened GameConfig

  /** One frame of the background: one pixel left, back to 0 at -width. */
  function BackgroundStep(width: int, x: int): (r: int)
    requires width > 0 && -width < x <= 0
    ensures -width < r <= 0
    ensures r == 0 || r == x - 1
    ensures r == 0 <==> x == 1 - width
  {
    if x - 1 <= -width then 0 else x - 1
  }

  /** The background offset after `n` frames from the start offset 0. */
  function BackgroundAfter(width: int, n: nat): (r: int)
    requires width > 0
    ensures -width < r <= 0
  {
    if n == 0 then 0 else BackgroundStep(width, BackgroundAfter(width, n - 1))
  }

  /** Euclidean division is determined by its quotient-remainder equation. */
  lemma DivModUnique(a: int, w: int, q: int, r: int)
    requires w > 0 && 0 <= r < w && a == q * w + r
    ensures a % w == r
  {
    var q', r' := a / w, a % w;
    assert a == q' * w + r';
    var d := q - q';
    assert d * w == q * w - q' * w;
    assert d * w == r' - r;
    if d > 0 {
      MulAtLeast(d, w);
    } else if d < 0 {
      MulAtLeast(-d, w);
    }
  }

  lemma MulAtLeast(d: int, w: int)
    requires d > 0 && w > 0
    ensures d * w >= w
  {
    if d > 1 {
      MulAtLeast(d - 1, w);
      assert d * w == (d - 1) * w + w;
    }
  }

  /** The background offset is periodic: after n frames it is -(n mod width). */
  lemma {:induction false} BackgroundCycle(width: int, n: nat)
    requires width > 0
    ensures BackgroundAfter(width, n) == -(n % width)
  {
    if n > 0 {
      BackgroundCycle(width, n - 1);
      var m := n - 1;
      var q, r := m / width, m % width;
      assert m == q * width + r;
      if r == width - 1 {
        assert n == (q + 1) * width by {
          assert (q + 1) * width == q * width + width;
        }
        DivModUnique(n, width, q + 1, 0);
      } else {
        DivModUnique(n, width, q, r + 1);
      }
    }
  }

  /** One frame of the ground: `speed` left, back to exactly 0 once the
      offset reaches -width or beyond. */
  function GroundStep(width: int, speed: real, x: real): (r: real)
    requires width > 0 && speed > 0.0 && -(width as real) < x <= 0.0
    ensures -(width as real) < r <= 0.0
    ensures r == 0.0 || r == x - speed
    ensures r < x || r == 0.0
    ensures r == 0.0 <==> x - speed <= -(width as real)
  {
    if x - speed <= -(width as real) then 0.0 else x - speed
  }

  /** The background layer (game.py `Background`). */
  class Background {
    const cfg: Config
    var x: int

    ghost predicate Valid()
      reads this
    {
      cfg.Valid() && -cfg.screenWidth < x <= 0
    }

    constructor (cfg: Config)
      requires cfg.Valid()
      ensures Valid() && this.cfg == cfg && x == 0
    {
      this.cfg := cfg;
      x := 0;
    }

    /** Moves one pixel left, wrapping to 0 at -screenWidth. */
    method Update()
      requires Valid()
      modifies this
      ensures Valid()
      ensures x == BackgroundStep(cfg.screenWidth, old(x))
    {
      x := x - 1;
      if x <= -cfg.screenWidth {
        x := 0;
      }
    }
  }

  /** The ground strip (game.py `Base`): scrolls at the pipe speed and sits
      20 pixels below the top of the ground area. */
  class Base {
    const cfg: Config
    const y: int
    const speed: real
    var x: real

    ghost predicate Valid()
      reads this
    {
      && cfg.Valid()
      && y == cfg.screenHeight - cfg.baseHeight + 20
      && speed == cfg.pipeSpeed
      && -(cfg.screenWidth as real) < x <= 0.0
    }

    constructor (cfg: Config)
      requires cfg.Valid()
      ensures Valid() && this.cfg == cfg && x == 0.0
    {
      this.cfg := cfg;
      y := cfg.screenHeight - cfg.baseHeight + 20;
      speed := cfg.pipeSpeed;
      x := 0.0;
    }

    /** Moves `speed` left, wrapping to 0 at -screenWidth. */
    method Update()
      requires Valid()
      modifies this
      ensures Valid()
      ensures x == GroundStep(cfg.screenWidth, speed, old(x))
    {
      x := x - speed;
      if x <= -(cfg.screenWidth as real) {
        x := 0.0;
      }
    }
  }
}
