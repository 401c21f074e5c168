/** The pipe row as an ordered queue (oldest, left-most pipe first) and the
    per-frame operations the game and the evaluators apply to it: moving,
    dropping off-screen pipes, topping up, and crediting passed pipes. */
module PipeQueue {
  import opened GameConfig
  import opened Pipes
  import opened Removal

  /** Every pipe one frame further left, in the same order. */
  function MoveAll(cfg: Config, ps: seq<Pipe>): seq<Pipe> {
    seq(|ps|, i requires 0 <= i < |ps| => Moved(cfg, ps[i]))
  }

  /** `for pipe in pipes: pipe.update()`. Each pipe moves exactly pipeSpeed
      to the left; order, heights and passed flags are kept. */
  method MovePipes(cfg: Config, ps: seq<Pipe>) returns (r: seq<Pipe>)
    ensures r == MoveAll(cfg, ps)
    ensures |r| == |ps|
    ensures forall i :: 0 <= i < |ps| ==>
      r[i].x == ps[i].x - cfg.pipeSpeed && r[i].height == ps[i].height && r[i].passed == ps[i].passed
  {
    r := ps;
    var i := 0;
    while i < |r|
      invariant 0 <= i <= |r| == |ps|
      invariant forall j :: 0 <= j < i ==> r[j] == Moved(cfg, ps[j])
      invariant forall j :: i <= j < |r| ==> r[j] == ps[j]
    {
      r := r[i := Moved(cfg, r[i])];
      i := i + 1;
    }
  }

  /** `while pipes and pipes[0].x + pipeWidth < 0: pipes.popleft()`: removes
      the off-screen pipes at the front, and only those; the result is a
      suffix of the queue whose head (if any) is on screen. */
  function DropFront(cfg: Config, ps: seq<Pipe>): (r: seq<Pipe>)
    ensures |r| <= |ps| && r == ps[|ps| - |r|..]
    ensures forall j :: 0 <= j < |ps| - |r| ==> OffScreen(cfg, ps[j])
    ensures r != [] ==> !OffScreen(cfg, r[0])
  {
    if |ps| > 0 && OffScreen(cfg, ps[0]) then
      var r := DropFront(cfg, ps[1..]);
      assert forall j :: 1 <= j < |ps| ==> ps[j] == ps[1..][j - 1];
      r
    else ps
  }

  /** `while len(pipes) < 2: spawn_pipe()`: appends pipes at x = screenWidth,
      the k-th with height hs[k], until there are two. */
  function Refill(cfg: Config, ps: seq<Pipe>, hs: seq<int>): (r: seq<Pipe>)
    requires |hs| >= 2 - |ps|
    requires forall k :: 0 <= k < |hs| ==> cfg.HeightOk(hs[k])
    ensures |r| == if |ps| < 2 then 2 else |ps|
    ensures r[..|ps|] == ps
    ensures forall j :: |ps| <= j < |r| ==> r[j] == NewPipe(cfg, cfg.screenWidth as real, hs[j - |ps|])
    decreases 2 - |ps|
  {
    if |ps| >= 2 then ps
    else
      var r := Refill(cfg, ps + [NewPipe(cfg, cfg.screenWidth as real, hs[0])], hs[1..]);
      assert (ps + [NewPipe(cfg, cfg.screenWidth as real, hs[0])])[..|ps|] == ps;
      r
  }

  /** The column offset a bird must pass: the middle of the pipe in the game
      (`pipe.x + pipeWidth / 2 < bird.x`) ... */
  function MidpointEdge(cfg: Config): real {
    cfg.pipeWidth as real / 2.0
  }

  /** ... and its right edge in the evaluators (`bird.x > pipe.x + pipeWidth`). */
  function TrailingEdge(cfg: Config): real {
    cfg.pipeWidth as real
  }

  /** The pipe is not yet passed and its edge is left of column bx. */
  predicate Passes(p: Pipe, bx: int, edge: real) {
    !p.passed && p.x + edge < bx as real
  }

  /** Every pipe that `Passes` gets its flag set; nothing else changes. */
  function Credited(ps: seq<Pipe>, bx: int, edge: real): seq<Pipe> {
    seq(|ps|, i requires 0 <= i < |ps| => if Passes(ps[i], bx, edge) then ps[i].(passed := true) else ps[i])
  }

  /** How many pipes of `ps` pass column bx. */
  function NewlyPassed(ps: seq<Pipe>, bx: int, edge: real): nat {
    if |ps| == 0 then 0
    else NewlyPassed(ps[..|ps| - 1], bx, edge) + (if Passes(ps[|ps| - 1], bx, edge) then 1 else 0)
  }

  /** How many pipes of `ps` carry the passed flag. */
  function PassedCount(ps: seq<Pipe>): nat {
    if |ps| == 0 then 0
    else PassedCount(ps[..|ps| - 1]) + (if ps[|ps| - 1].passed then 1 else 0)
  }

  /** The credit loop for one bird: `for pipe in pipes: if not pipe.passed and
      <edge passed>: pipe.passed = True; gained += 1`. */
  method CreditPipes(ps: seq<Pipe>, bx: int, edge: real) returns (r: seq<Pipe>, gained: nat)
    ensures r == Credited(ps, bx, edge)
    ensures gained == NewlyPassed(ps, bx, edge)
  {
    r := ps;
    gained := 0;
    var i := 0;
    while i < |r|
      invariant 0 <= i <= |r| == |ps|
      invariant forall j :: 0 <= j < i ==> r[j] == Credited(ps, bx, edge)[j]
      invariant forall j :: i <= j < |r| ==> r[j] == ps[j]
      invariant gained == NewlyPassed(ps[..i], bx, edge)
    {
      assert ps[..i + 1][..i] == ps[..i];
      if !r[i].passed && r[i].x + edge < bx as real {
        r := r[i := r[i].(passed := true)];
        gained := gained + 1;
      }
      i := i + 1;
    }
    assert ps[..i] == ps;
  }

  /** Crediting flips flags only from false to true, never back, and the
      number of flags set grows by exactly the number of pipes credited. */
  lemma {:induction false} CreditCountsFlips(ps: seq<Pipe>, bx: int, edge: real)
    ensures |Credited(ps, bx, edge)| == |ps|
    ensures forall i :: 0 <= i < |ps| ==> (ps[i].passed ==> Credited(ps, bx, edge)[i].passed)
    ensures PassedCount(Credited(ps, bx, edge)) == PassedCount(ps) + NewlyPassed(ps, bx, edge)
  {
    if |ps| > 0 {
      var init := ps[..|ps| - 1];
      CreditCountsFlips(init, bx, edge);
      assert Credited(ps, bx, edge)[..|ps| - 1] == Credited(init, bx, edge);
    }
  }

  /** A pipe is credited at most once: crediting again changes nothing and
      credits nobody. */
  lemma {:induction false} CreditOnce(ps: seq<Pipe>, bx: int, edge: real)
    ensures Credited(Credited(ps, bx, edge), bx, edge) == Credited(ps, bx, edge)
    ensures NewlyPassed(Credited(ps, bx, edge), bx, edge) == 0
  {
    if |ps| > 0 {
      var init := ps[..|ps| - 1];
      CreditOnce(init, bx, edge);
      assert Credited(ps, bx, edge)[..|ps| - 1] == Credited(init, bx, edge);
    }
  }

  /** The positions of the off-screen pipes in the row. */
  function OffIndices(cfg: Config, ps: seq<Pipe>): set<nat> {
    set i: nat | i < |ps| && OffScreen(cfg, ps[i])
  }

  /** `[pipe for pipe in pipes if not pipe.off_screen()]`: every off-screen
      pipe goes, wherever it stands; the others stay, in order. */
  function OnScreen(cfg: Config, ps: seq<Pipe>): (r: seq<Pipe>)
    ensures |r| <= |ps|
    ensures forall p :: p in r <==> p in ps && !OffScreen(cfg, p)
    ensures r == Without(ps, OffIndices(cfg, ps))
  {
    if |ps| == 0 then []
    else
      var init := OnScreen(cfg, ps[..|ps| - 1]);
      assert forall p :: p in ps <==> p in ps[..|ps| - 1] || p == ps[|ps| - 1];
      WithoutIgnoresOutside(ps[..|ps| - 1], OffIndices(cfg, ps[..|ps| - 1]), OffIndices(cfg, ps));
      if OffScreen(cfg, ps[|ps| - 1]) then init else init + [ps[|ps| - 1]]
  }

  /** The evaluators' spawn rule: a pipe at screenWidth + 100 (height h) is
      appended exactly when the row is empty or its last pipe is further left
      than screenWidth - 300. Afterwards the row is never empty. */
  function SpawnSpaced(cfg: Config, ps: seq<Pipe>, h: int): (r: seq<Pipe>)
    requires cfg.HeightOk(h)
    ensures |r| == |ps| || |r| == |ps| + 1
    ensures |r| > 0 && r[..|ps|] == ps
    ensures |r| == |ps| + 1 <==> (|ps| == 0 || ps[|ps| - 1].x < (cfg.screenWidth - 300) as real)
    ensures |r| == |ps| + 1 ==> r[|ps|] == NewPipe(cfg, (cfg.screenWidth + 100) as real, h)
  {
    if |ps| == 0 || ps[|ps| - 1].x < (cfg.screenWidth - 300) as real then
      ps + [NewPipe(cfg, (cfg.screenWidth + 100) as real, h)]
    else ps
  }
}
