/** The single-genome evaluator of the training driver (main.py
    `get_state_from_pipe`, `check_collision_with_pipes`, `eval_genome`). */
module Evaluation {
  import opened GameConfig
  import opened Geometry
  import opened Scrolling
  import opened Birds
  import opened Pipes
  import opened PipeQueue

  /** Frame budget of one evaluation. */
  const MaxFramesPerGen: nat := 10000

  /** A controller network: the first output it gives for an observation
      (`net.activate(state)[0]`). */
  type Policy = seq<real> -> real

  /** `get_state_from_pipe`: the bird's height relative to the top and to the
      bottom of the pipe's gap (in screen heights) and the pipe's distance
      ahead (in screen widths). The two vertical readings always differ by
      the gap's share of the screen; both straddle 0 exactly when the bird's
      top edge is inside the gap, and the third is positive exactly when the
      pipe's left edge is right of the bird. */
  function Observe(cfg: Config, b: Bird, p: Pipe): (s: seq<real>)
    requires cfg.Valid()
    ensures |s| == 3
    ensures s[1] - s[0] == cfg.pipeGap as real / cfg.screenHeight as real
    ensures (s[0] <= 0.0 <= s[1]) <==> (p.height as real <= b.y <= (p.height + cfg.pipeGap) as real)
    ensures s[2] > 0.0 <==> p.x > b.x as real
  {
    var h := cfg.screenHeight as real;
    var w := cfg.screenWidth as real;
    [(p.height as real - b.y) / h,
     ((p.height + cfg.pipeGap) as real - b.y) / h,
     (p.x - b.x as real) / w]
  }

  /** `check_collision_with_pipes`: the bird is at or above the top of the
      screen, reaches the top of the ground area (screenHeight - baseHeight),
      or its rectangle overlaps one of the pipes. */
  function CheckCollisionWithPipes(cfg: Config, b: Bird, ps: seq<Pipe>): (hit: bool)
    requires cfg.Valid()
    ensures hit <==> (|| b.y <= 0.0
                      || b.y + cfg.birdSize as real >= (cfg.screenHeight - cfg.baseHeight) as real
                      || exists i :: 0 <= i < |ps| && HitsPipe(cfg, BirdRect(cfg, b), ps[i]))
  {
    if b.y <= 0.0 || b.y + cfg.birdSize as real >= (cfg.screenHeight - cfg.baseHeight) as real then true
    else HitsAnyPipe(cfg, BirdRect(cfg, b), ps)
  }

  /** The evaluators' end-of-bird test: a collision, or the bird's top edge at
      or above the screen top or at or below the top of the ground area. The
      extra bounds test is subsumed by the collision check, whose ground test
      already fires birdSize pixels higher. */
  predicate Crashed(cfg: Config, b: Bird, ps: seq<Pipe>)
    requires cfg.Valid()
    ensures Crashed(cfg, b, ps) <==> (|| b.y <= 0.0
                                      || b.y + cfg.birdSize as real >= (cfg.screenHeight - cfg.baseHeight) as real
                                      || HitsAnyPipe(cfg, BirdRect(cfg, b), ps))
  {
    CheckCollisionWithPipes(cfg, b, ps) || b.y <= 0.0 || b.y >= (cfg.screenHeight - cfg.baseHeight) as real
  }

  /** One controlled frame of a bird: observe the target pipe, jump when the
      network's first output exceeds 0.5, then fall. Column and score stay;
      a jump leaves the bird rising at jumpStrength - gravity, otherwise
      gravity is added to the old velocity. */
  function Steer(cfg: Config, net: Policy, b: Bird, target: Pipe): (r: Bird)
    requires cfg.Valid()
    ensures r.x == b.x && r.score == b.score && r.y == b.y + r.velocity
    ensures net(Observe(cfg, b, target)) > 0.5 ==> r.velocity == cfg.gravity - cfg.jumpStrength
    ensures net(Observe(cfg, b, target)) <= 0.5 ==> r.velocity == b.velocity + cfg.gravity
  {
    Flap(cfg, b, net(Observe(cfg, b, target)) > 0.5)
  }

  /** The state of `eval_genome` between frames: the bird, the pipe row, how
      many pipes have been spawned, the frames run, pipes passed, the fitness
      so far and whether the bird has crashed. */
  datatype Solo = Solo(bird: Bird, pipes: seq<Pipe>, spawned: nat, frames: nat,
                       score: nat, fitness: real, crashed: bool)

  /** Before the first frame: a fresh bird, one pipe at screenWidth + 100. */
  function SoloStart(cfg: Config, heights: nat -> int): Solo
    requires cfg.Valid() && cfg.HeightOk(heights(0))
  {
    Solo(NewBird(cfg), [NewPipe(cfg, (cfg.screenWidth + 100) as real, heights(0))], 1, 0, 0, 0.0, false)
  }

  /** One frame of `eval_genome`: move the pipes, drop the off-screen ones,
      spawn by spacing, steer against the head pipe, add 0.1, credit passed
      pipes (+5 each) and take 1 off on a crash. */
  function SoloFrame(cfg: Config, net: Policy, heights: nat -> int, s: Solo): (r: Solo)
    requires cfg.Valid() && forall k: nat :: cfg.HeightOk(heights(k))
    ensures r.frames == s.frames + 1
    ensures r.crashed <==> Crashed(cfg, r.bird, r.pipes)
    ensures r.score >= s.score
    ensures r.fitness == s.fitness + 0.1 + 5.0 * (r.score - s.score) as real - (if r.crashed then 1.0 else 0.0)
  {
    var kept := OnScreen(cfg, MoveAll(cfg, s.pipes));
    var ps := SpawnSpaced(cfg, kept, heights(s.spawned));
    var b := Steer(cfg, net, s.bird, ps[0]);
    var gained := NewlyPassed(ps, b.x, TrailingEdge(cfg));
    var credited := Credited(ps, b.x, TrailingEdge(cfg));
    var hit := Crashed(cfg, b, credited);
    Solo(b, credited, if |ps| > |kept| then s.spawned + 1 else s.spawned, s.frames + 1, s.score + gained,
         s.fitness + 0.1 + 5.0 * (gained as real) - (if hit then 1.0 else 0.0), hit)
  }

  /** A frame's score gain is the number of pipes it credits: it never
      clears a flag of the row it credits, and sets exactly as many flags as
      the score rises. */
  lemma SoloFrameCredits(cfg: Config, net: Policy, heights: nat -> int, s: Solo)
    requires cfg.Valid() && forall k: nat :: cfg.HeightOk(heights(k))
    ensures var r := SoloFrame(cfg, net, heights, s);
      var row := SpawnSpaced(cfg, OnScreen(cfg, MoveAll(cfg, s.pipes)), heights(s.spawned));
      && |r.pipes| == |row|
      && (forall i :: 0 <= i < |row| ==> (row[i].passed ==> r.pipes[i].passed))
      && PassedCount(r.pipes) == PassedCount(row) + (r.score - s.score)
  {
    var row := SpawnSpaced(cfg, OnScreen(cfg, MoveAll(cfg, s.pipes)), heights(s.spawned));
    var b := Steer(cfg, net, s.bird, row[0]);
    CreditCountsFlips(row, b.x, TrailingEdge(cfg));
  }

  /** Frames run until the bird crashes or the budget is spent. */
  function SoloRun(cfg: Config, net: Policy, heights: nat -> int, s: Solo): Solo
    requires cfg.Valid() && forall k: nat :: cfg.HeightOk(heights(k))
    decreases MaxFramesPerGen - s.frames
  {
    if s.crashed || s.frames >= MaxFramesPerGen then s
    else SoloRun(cfg, net, heights, SoloFrame(cfg, net, heights, s))
  }

  /** What a run promises: the fitness is 0.1 per frame plus 5 per pipe minus
      1 for a crash; the run ends on a crash or at the budget, never beyond
      it; and once a frame has run, `crashed` is exactly the crash test on the
      final bird and row. */
  lemma {:induction false} SoloRunEnds(cfg: Config, net: Policy, heights: nat -> int, s: Solo)
    requires cfg.Valid() && forall k: nat :: cfg.HeightOk(heights(k))
    requires s.frames <= MaxFramesPerGen
    requires s.fitness == (s.frames as real) * 0.1 + 5.0 * (s.score as real) - (if s.crashed then 1.0 else 0.0)
    requires s.frames > 0 ==> (s.crashed <==> Crashed(cfg, s.bird, s.pipes))
    requires s.crashed ==> s.frames > 0
    ensures var r := SoloRun(cfg, net, heights, s);
      && s.frames <= r.frames <= MaxFramesPerGen
      && (r.crashed || r.frames == MaxFramesPerGen)
      && r.fitness == (r.frames as real) * 0.1 + 5.0 * (r.score as real) - (if r.crashed then 1.0 else 0.0)
      && r.frames > 0
      && (r.crashed <==> Crashed(cfg, r.bird, r.pipes))
    decreases MaxFramesPerGen - s.frames
  {
    if !s.crashed && s.frames < MaxFramesPerGen {
      SoloRunEnds(cfg, net, heights, SoloFrame(cfg, net, heights, s));
    }
  }

  /** The body of the frame loop of `eval_genome` after the scrolling layers
      move: the pipe row, the bird, the score and the fitness of one frame. */
  method FlyFrame(cfg: Config, net: Policy, heights: nat -> int, bird: Bird, pipes: seq<Pipe>,
                  spawned: nat, score: nat, fitness: real, ghost frames: nat, ghost crashed: bool)
    returns (bird': Bird, pipes': seq<Pipe>, spawned': nat, score': nat, fitness': real, hit: bool)
    requires cfg.Valid() && forall k: nat :: cfg.HeightOk(heights(k))
    ensures SoloFrame(cfg, net, heights, Solo(bird, pipes, spawned, frames, score, fitness, crashed))
            == Solo(bird', pipes', spawned', frames + 1, score', fitness', hit)
  {
    var moved := MovePipes(cfg, pipes);
    var kept := OnScreen(cfg, moved);
    var row := SpawnSpaced(cfg, kept, heights(spawned));
    spawned' := spawned;
    if |row| > |kept| {
      spawned' := spawned + 1;
    }

    bird' := Steer(cfg, net, bird, row[0]);
    fitness' := fitness + 0.1;

    var gained;
    pipes', gained := CreditPipes(row, bird'.x, TrailingEdge(cfg));
    score' := score + gained;
    fitness' := fitness' + 5.0 * (gained as real);

    hit := Crashed(cfg, bird', pipes');
    if hit {
      fitness' := fitness' - 1.0;
    }
    assert row == SpawnSpaced(cfg, OnScreen(cfg, MoveAll(cfg, pipes)), heights(spawned));
    assert spawned' == if |row| > |kept| then spawned + 1 else spawned;
    assert fitness' == fitness + 0.1 + 5.0 * (gained as real) - (if hit then 1.0 else 0.0);
    ghost var s := Solo(bird, pipes, spawned, frames, score, fitness, crashed);
    ghost var r := SoloFrame(cfg, net, heights, s);
    assert r.bird == bird';
    assert r.pipes == pipes';
    assert r.spawned == spawned';
    assert r.score == score';
    assert r.crashed == hit;
    assert r.fitness == fitness';
  }

  /** The frame loop of `eval_genome`: the scrolling layers move, then the
      bird flies one frame, until it crashes or the frame budget is spent. */
  method SoloPlay(cfg: Config, net: Policy, heights: nat -> int, s0: Solo, bg: Background, base: Base)
    returns (s: Solo)
    requires cfg.Valid() && (forall k: nat :: cfg.HeightOk(heights(k)))
    requires bg.Valid() && base.Valid()
    modifies bg, base
    ensures s == SoloRun(cfg, net, heights, s0)
    ensures bg.Valid() && base.Valid()
  {
    s := s0;
    while !s.crashed && s.frames < MaxFramesPerGen
      invariant bg.Valid() && base.Valid()
      invariant SoloRun(cfg, net, heights, s) == SoloRun(cfg, net, heights, s0)
      decreases MaxFramesPerGen - s.frames
    {
      bg.Update();
      base.Update();
      var bird, pipes, spawned, score, fitness, hit :=
        FlyFrame(cfg, net, heights, s.bird, s.pipes, s.spawned, s.score, s.fitness, s.frames, s.crashed);
      s := Solo(bird, pipes, spawned, s.frames + 1, score, fitness, hit);
    }
  }

  /** `eval_genome`: one bird against its own pipes, frame by frame as
      `SoloFrame` says, until a crash or the frame budget. `heights(k)` is
      the height of the k-th pipe spawned. Returns the fitness (also written
      to `genome.fitness`) and, for the contract, the frames run, pipes
      passed, whether it crashed and the final bird and row. */
  method EvalGenome(cfg: Config, net: Policy, heights: nat -> int)
    returns (fitness: real, frames: nat, score: nat, collided: bool, bird: Bird, pipes: seq<Pipe>)
    requires cfg.Valid()
    requires forall k: nat :: cfg.HeightOk(heights(k))
    ensures var r := SoloRun(cfg, net, heights, SoloStart(cfg, heights));
      && bird == r.bird && pipes == r.pipes && frames == r.frames
      && score == r.score && fitness == r.fitness && collided == r.crashed
    ensures frames <= MaxFramesPerGen
    ensures collided || frames == MaxFramesPerGen
    ensures collided <==> Crashed(cfg, bird, pipes)
    ensures fitness == (frames as real) * 0.1 + 5.0 * (score as real) - (if collided then 1.0 else 0.0)
  {
    var start := Solo(NewBird(cfg), [NewPipe(cfg, (cfg.screenWidth + 100) as real, heights(0))], 1, 0, 0, 0.0, false);
    assert start == SoloStart(cfg, heights);
    var bg := new Background(cfg);
    var base := new Base(cfg);
    var s := SoloPlay(cfg, net, heights, start, bg, base);
    SoloRunEnds(cfg, net, heights, start);
    bird, pipes, frames, score, fitness, collided := s.bird, s.pipes, s.frames, s.score, s.fitness, s.crashed;
  }
}
