/** The single-bird game world (game.py `Game`): scrolling layers, the
    primary bird, the pipe queue and the score. */
module World {
  import opened Options
  import opened GameConfig
  import opened Geometry
  import opened Scrolling
  import opened Birds
  import opened Pipes
  import opened PipeQueue

  /** Every pipe of the row has a height drawn from the legal range. */
  predicate HeightsOk(cfg: Config, ps: seq<Pipe>) {
    forall i :: 0 <= i < |ps| ==> cfg.HeightOk(ps[i].height)
  }

  /** The pipes one `Game.update` leaves before crediting: moved, off-screen
      head pipes dropped, topped up to two with heights from `hs`. */
  function Advanced(cfg: Config, ps: seq<Pipe>, hs: seq<int>): seq<Pipe>
    requires |hs| >= 2 && forall k :: 0 <= k < |hs| ==> cfg.HeightOk(hs[k])
  {
    Refill(cfg, DropFront(cfg, MoveAll(cfg, ps)), hs)
  }

  /** After a frame the queue holds at least two pipes, all with legal
      heights, and its head is on screen: it is the first surviving old pipe,
      or a new pipe at the right edge of the screen. */
  lemma AdvancedShape(cfg: Config, ps: seq<Pipe>, hs: seq<int>)
    requires cfg.Valid() && HeightsOk(cfg, ps)
    requires |hs| >= 2 && forall k :: 0 <= k < |hs| ==> cfg.HeightOk(hs[k])
    ensures |Advanced(cfg, ps, hs)| >= 2
    ensures HeightsOk(cfg, Advanced(cfg, ps, hs))
    ensures !OffScreen(cfg, Advanced(cfg, ps, hs)[0])
  {
    DroppedHeights(cfg, ps);
    RefilledShape(cfg, DropFront(cfg, MoveAll(cfg, ps)), hs);
  }

  /** Moving and dropping pipes keeps the heights legal. */
  lemma DroppedHeights(cfg: Config, ps: seq<Pipe>)
    requires HeightsOk(cfg, ps)
    ensures HeightsOk(cfg, DropFront(cfg, MoveAll(cfg, ps)))
  {
    var m := MoveAll(cfg, ps);
    var d := DropFront(cfg, m);
    assert HeightsOk(cfg, m);
    forall i | 0 <= i < |d| ensures cfg.HeightOk(d[i].height) {
      assert d[i] == m[|m| - |d| + i];
    }
  }

  /** Topping up a queue with an on-screen head (or none) with legal heights
      gives two or more pipes with legal heights and an on-screen head. */
  lemma RefilledShape(cfg: Config, d: seq<Pipe>, hs: seq<int>)
    requires cfg.Valid() && HeightsOk(cfg, d) && (d != [] ==> !OffScreen(cfg, d[0]))
    requires |hs| >= 2 && forall k :: 0 <= k < |hs| ==> cfg.HeightOk(hs[k])
    ensures |Refill(cfg, d, hs)| >= 2
    ensures HeightsOk(cfg, Refill(cfg, d, hs))
    ensures !OffScreen(cfg, Refill(cfg, d, hs)[0])
  {
    var r := Refill(cfg, d, hs);
    forall i | 0 <= i < |r| ensures cfg.HeightOk(r[i].height) {
      if i < |d| {
        assert r[i] == r[..|d|][i];
      }
    }
    if |d| > 0 {
      assert r[0] == r[..|d|][0];
    }
  }

  /** Crediting touches only the passed flags, so the queue keeps its shape. */
  lemma CreditedShape(cfg: Config, ps: seq<Pipe>, bx: int, edge: real)
    requires |ps| >= 2 && HeightsOk(cfg, ps) && !OffScreen(cfg, ps[0])
    ensures |Credited(ps, bx, edge)| >= 2 && HeightsOk(cfg, Credited(ps, bx, edge))
    ensures !OffScreen(cfg, Credited(ps, bx, edge)[0])
  {
  }

  class Game {
    const cfg: Config
    const bg: Background
    const base: Base
    var bird: Bird
    var pipes: seq<Pipe>
    var score: int

    /** At least two pipes with legal heights and an on-screen head; the
        game's score is the primary bird's score. */
    ghost predicate Valid()
      reads this, bg, base
    {
      && cfg.Valid()
      && bg.Valid() && bg.cfg == cfg
      && base.Valid() && base.cfg == cfg
      && |pipes| >= 2 && !OffScreen(cfg, pipes[0])
      && HeightsOk(cfg, pipes)
      && bird.score == score
    }

    /** `Game.__init__`, with the two drawn pipe heights given. */
    constructor (cfg: Config, h0: int, h1: int)
      requires cfg.Valid() && cfg.HeightOk(h0) && cfg.HeightOk(h1)
      ensures Valid() && this.cfg == cfg && fresh(bg) && fresh(base)
      ensures bg.x == 0 && base.x == 0.0
      ensures bird.x == cfg.birdX && bird.y == (cfg.screenHeight / 2) as real
      ensures bird.velocity == 0.0 && bird.score == 0 && score == 0
      ensures pipes == [NewPipe(cfg, cfg.screenWidth as real, h0),
                        NewPipe(cfg, (cfg.screenWidth + 200) as real, h1)]
    {
      this.cfg := cfg;
      bg := new Background(cfg);
      base := new Base(cfg);
      bird := NewBird(cfg);
      pipes := [];
      score := 0;
      new;
      SpawnPipe(0, h0);
      SpawnPipe(200, h1);
    }

    /** `Game.spawn_pipe(offset)`: a new pipe at screenWidth + offset at the back. */
    method SpawnPipe(offset: int, h: int)
      requires cfg.HeightOk(h)
      modifies this`pipes
      ensures pipes == old(pipes) + [NewPipe(cfg, (cfg.screenWidth + offset) as real, h)]
    {
      pipes := pipes + [NewPipe(cfg, (cfg.screenWidth + offset) as real, h)];
    }

    /** `Game.update(bird, action)`. `subject` None stands for the primary
        bird, Some(b) for another bird object, which is returned updated;
        `hs` supplies the heights of the pipes spawned in this frame. */
    method Update(action: Option<int>, subject: Option<Bird>, hs: seq<int>) returns (moved: Bird)
      requires Valid()
      requires |hs| >= 2 && forall k :: 0 <= k < |hs| ==> cfg.HeightOk(hs[k])
      modifies this, bg, base
      ensures Valid()
      ensures bg.x == BackgroundStep(cfg.screenWidth, old(bg.x))
      ensures base.x == GroundStep(cfg.screenWidth, cfg.pipeSpeed, old(base.x))
      ensures var b := Flap(cfg, if subject.Some? then subject.value else old(bird), action == Some(1));
              var ps := Advanced(cfg, old(pipes), hs);
              && pipes == Credited(ps, b.x, MidpointEdge(cfg))
              && moved == b.(score := b.score + NewlyPassed(ps, b.x, MidpointEdge(cfg)))
      ensures subject.None? ==> bird == moved && score == moved.score
      ensures subject.Some? ==> bird == old(bird) && score == old(score)
    {
      bg.Update();
      base.Update();

      var b := if subject.Some? then subject.value else bird;
      if action == Some(1) {
        b := Jump(cfg, b);
      }
      b := Fall(cfg, b);

      var gained := AdvanceAndCredit(hs, b.x);
      b := b.(score := b.score + gained);
      if subject.None? {
        bird := b;
        score := score + gained;
      }
      moved := b;
    }

    /** The pipe part of `Game.update`: advance the queue, then credit the
        pipes whose midpoint the bird in column bx has passed. */
    method AdvanceAndCredit(hs: seq<int>, bx: int) returns (gained: nat)
      requires cfg.Valid() && |pipes| >= 2 && HeightsOk(cfg, pipes)
      requires |hs| >= 2 && forall k :: 0 <= k < |hs| ==> cfg.HeightOk(hs[k])
      modifies this`pipes
      ensures pipes == Credited(Advanced(cfg, old(pipes), hs), bx, MidpointEdge(cfg))
      ensures gained == NewlyPassed(Advanced(cfg, old(pipes), hs), bx, MidpointEdge(cfg))
      ensures |pipes| >= 2 && HeightsOk(cfg, pipes) && !OffScreen(cfg, pipes[0])
    {
      ghost var old0 := pipes;
      AdvancePipes(hs);
      AdvancedShape(cfg, old0, hs);
      CreditedShape(cfg, pipes, bx, MidpointEdge(cfg));
      pipes, gained := CreditPipes(pipes, bx, MidpointEdge(cfg));
    }

    /** The pipe part of `Game.update` before crediting: move every pipe,
        pop off-screen pipes from the front, spawn at the back until there are
        two. */
    method AdvancePipes(hs: seq<int>)
      requires |hs| >= 2 && forall k :: 0 <= k < |hs| ==> cfg.HeightOk(hs[k])
      modifies this`pipes
      ensures pipes == Advanced(cfg, old(pipes), hs)
    {
      pipes := MovePipes(cfg, pipes);
      DropPipes();
      RefillPipes(hs);
    }

    /** Pops off-screen pipes from the front of the queue. */
    method DropPipes()
      modifies this`pipes
      ensures pipes == DropFront(cfg, old(pipes))
    {
      while |pipes| > 0 && pipes[0].x + cfg.pipeWidth as real < 0.0
        invariant DropFront(cfg, pipes) == DropFront(cfg, old(pipes))
      {
        pipes := pipes[1..];
      }
    }

    /** Spawns pipes at the right edge, heights drawn from `hs` in order,
        until the queue holds two. */
    method RefillPipes(hs: seq<int>)
      requires |hs| >= 2 - |pipes| && forall k :: 0 <= k < |hs| ==> cfg.HeightOk(hs[k])
      modifies this`pipes
      ensures pipes == Refill(cfg, old(pipes), hs)
    {
      var k := 0;
      while |pipes| < 2
        invariant 0 <= k <= |hs| && |hs| - k >= 2 - |pipes|
        invariant Refill(cfg, pipes, hs[k..]) == Refill(cfg, old(pipes), hs)
      {
        assert hs[k..][1..] == hs[k + 1..];
        SpawnPipe(0, hs[k]);
        k := k + 1;
      }
    }

    /** `Game.check_collision(bird)`: the bird is at or above the top of the
        screen, reaches the ground strip (base.y = screenHeight - baseHeight + 20),
        or its rectangle overlaps one of the pipes. */
    function CheckCollision(subject: Option<Bird>): (hit: bool)
      reads this, bg, base
      requires Valid()
      ensures var b := if subject.Some? then subject.value else bird;
              hit <==> (|| b.y <= 0.0
                        || b.y + cfg.birdSize as real >= (cfg.screenHeight - cfg.baseHeight + 20) as real
                        || exists i :: 0 <= i < |pipes| && HitsPipe(cfg, BirdRect(cfg, b), pipes[i]))
    {
      var b := if subject.Some? then subject.value else bird;
      b.y <= 0.0 || b.y + cfg.birdSize as real >= base.y as real || HitsAnyPipe(cfg, BirdRect(cfg, b), pipes)
    }

    /** `Game.get_next_pipe(bird)`: the first pipe in queue order whose right
        edge is past the bird's column; the head if there is none. */
    function NextPipe(b: Bird): (p: Pipe)
      reads this, bg, base
      requires Valid()
      ensures exists k :: 0 <= k < |pipes| && p == pipes[k]
                && (Ahead(cfg, p, b.x) ==> forall j :: 0 <= j < k ==> !Ahead(cfg, pipes[j], b.x))
                && (!Ahead(cfg, p, b.x) ==> k == 0 && forall j :: 0 <= j < |pipes| ==> !Ahead(cfg, pipes[j], b.x))
    {
      pipes[NextPipeIndex(cfg, pipes, b.x)]
    }

    /** `Game.reset`, with the two drawn pipe heights given: a new primary
        bird, two new pipes, score 0; the scrolling layers keep their offsets. */
    method Reset(h0: int, h1: int)
      requires Valid() && cfg.HeightOk(h0) && cfg.HeightOk(h1)
      modifies this
      ensures Valid()
      ensures bird.x == cfg.birdX && bird.y == (cfg.screenHeight / 2) as real
      ensures bird.velocity == 0.0 && bird.score == 0 && score == 0
      ensures pipes == [NewPipe(cfg, cfg.screenWidth as real, h0),
                        NewPipe(cfg, (cfg.screenWidth + 200) as real, h1)]
    {
      bird := NewBird(cfg);
      pipes := [];
      score := 0;
      SpawnPipe(0, h0);
      SpawnPipe(200, h1);
    }
  }
}
