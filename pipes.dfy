/** A pipe (game.py `Pipe`): a column of width pipeWidth with an opening of
    pipeGap pixels whose top edge is at `height`, and the read-only queries
    over a row of pipes (collision with a bird rectangle, next pipe ahead). */
module Pipes {
  import opened GameConfig
  import opened Geometry

  /** Horizontal position, top-of-gap height (fixed at creation) and whether
      a bird has already been credited for it. */
  datatype Pipe = Pipe(x: real, height: int, passed: bool)

  /** `Pipe(x)` with the drawn height `h` (the random draw is an input here). */
  function NewPipe(cfg: Config, x: real, h: int): (r: Pipe)
    requires cfg.HeightOk(h)
    ensures r.x == x && r.height == h && !r.passed
    ensures cfg.Valid() ==> PipeRects(cfg, r).0.height >= 100 && PipeRects(cfg, r).1.height >= 100
  {
    Pipe(x, h, false)
  }

  /** `Pipe.update`: pipeSpeed to the left; a pipe that has left the screen
      never comes back. */
  function Moved(cfg: Config, p: Pipe): (r: Pipe)
    ensures r.x == p.x - cfg.pipeSpeed && r.height == p.height && r.passed == p.passed
    ensures cfg.pipeSpeed >= 0.0 && OffScreen(cfg, p) ==> OffScreen(cfg, r)
  {
    p.(x := p.x - cfg.pipeSpeed)
  }

  /** Height of the lower pipe: from the bottom of the gap to the screen bottom. */
  function BottomHeight(cfg: Config, p: Pipe): int {
    cfg.screenHeight - p.height - cfg.pipeGap
  }

  /** `Pipe.get_rects`: the upper and the lower pipe, both at column int(x).
      Together with the gap they cover the screen height exactly, and a pipe
      drawn from the legal range leaves both parts at least 100 pixels tall. */
  function PipeRects(cfg: Config, p: Pipe): (r: (Rect, Rect))
    requires cfg.Valid()
    ensures r.0.left == r.1.left == Trunc(p.x)
    ensures r.0.width == r.1.width == cfg.pipeWidth
    ensures r.0.top == 0 && r.0.Bottom() == p.height
    ensures r.1.top == r.0.Bottom() + cfg.pipeGap && r.1.Bottom() == cfg.screenHeight
    ensures r.0.height + cfg.pipeGap + r.1.height == cfg.screenHeight
    ensures cfg.HeightOk(p.height) ==> r.0.height >= 100 && r.1.height >= 100
  {
    (Rect(Trunc(p.x), 0, cfg.pipeWidth, p.height),
     Rect(Trunc(p.x), p.height + cfg.pipeGap, cfg.pipeWidth, BottomHeight(cfg, p)))
  }

  /** `Pipe.off_screen`: the right edge has left the screen, so both drawn
      rectangles lie at or left of column 0. */
  predicate OffScreen(cfg: Config, p: Pipe)
    ensures cfg.Valid() && OffScreen(cfg, p) ==> PipeRects(cfg, p).0.Right() <= 0
  {
    p.x + cfg.pipeWidth as real < 0.0
  }

  /** The rectangle `r` collides with the upper or the lower part of `p`. */
  predicate HitsPipe(cfg: Config, r: Rect, p: Pipe)
    requires cfg.Valid()
  {
    Collides(r, PipeRects(cfg, p).0) || Collides(r, PipeRects(cfg, p).1)
  }

  /** The loop over the pipes in a collision check: true as soon as one pipe is hit. */
  function HitsAnyPipe(cfg: Config, r: Rect, ps: seq<Pipe>): (hit: bool)
    requires cfg.Valid()
    ensures hit <==> exists i :: 0 <= i < |ps| && HitsPipe(cfg, r, ps[i])
  {
    if |ps| == 0 then false
    else if HitsPipe(cfg, r, ps[0]) then true
    else
      assert forall i :: 1 <= i < |ps| ==> ps[i] == ps[1..][i - 1];
      HitsAnyPipe(cfg, r, ps[1..])
  }

  /** The pipe's right edge is still to the right of column `bx`. */
  predicate Ahead(cfg: Config, p: Pipe, bx: int) {
    p.x + cfg.pipeWidth as real > bx as real
  }

  /** The scan of `Game.get_next_pipe` from position i on: the first pipe
      ahead of the bird, or the head when there is none. */
  function ScanAhead(cfg: Config, ps: seq<Pipe>, bx: int, i: nat): (k: nat)
    requires |ps| > 0 && i <= |ps|
    ensures k < |ps|
    ensures (exists j :: i <= j < |ps| && Ahead(cfg, ps[j], bx))
            ==> i <= k && Ahead(cfg, ps[k], bx) && forall j :: i <= j < k ==> !Ahead(cfg, ps[j], bx)
    ensures (forall j :: i <= j < |ps| ==> !Ahead(cfg, ps[j], bx)) ==> k == 0
    decreases |ps| - i
  {
    if i == |ps| then 0
    else if Ahead(cfg, ps[i], bx) then i
    else ScanAhead(cfg, ps, bx, i + 1)
  }

  /** `Game.get_next_pipe`: index of the first pipe in queue order whose right
      edge is past the bird's column, or 0 (the head) if none is. */
  function NextPipeIndex(cfg: Config, ps: seq<Pipe>, bx: int): (k: nat)
    requires |ps| > 0
    ensures k < |ps|
    ensures Ahead(cfg, ps[k], bx) ==> forall j :: 0 <= j < k ==> !Ahead(cfg, ps[j], bx)
    ensures !Ahead(cfg, ps[k], bx) ==> k == 0 && forall j :: 0 <= j < |ps| ==> !Ahead(cfg, ps[j], bx)
  {
    ScanAhead(cfg, ps, bx, 0)
  }
}
