/** A whole generation under `eval_genomes`, frame by frame, with the ledger
    that explains every genome's final fitness: 0.1 per frame its bird
    played, 5 per pipe its bird was credited, and -1 if the bird crashed. */
module Generation {
  import opened Options
  import opened GameConfig
  import opened Scrolling
  import opened Birds
  import opened Pipes
  import opened PipeQueue
  import opened Removal
  import opened Evaluation
  import opened Population

  /** The bookkeeping of a generation in progress over genomes 0..n-1. The
      live genomes are those in `ge`, whose j-th entry owns birds[j]; ticks[g]
      counts the frames genome g's bird played and credits[g] the pipes it
      was credited for. All birds stay in column birdX and only the first
      live bird has ever scored. */
  ghost predicate Ledger(cfg: Config, n: nat, frames: nat, birds: seq<Bird>, ge: seq<nat>,
                         fitness: seq<real>, ticks: seq<int>, credits: seq<int>)
  {
    && |birds| == |ge| && Ascending(ge) && (forall j :: 0 <= j < |ge| ==> ge[j] < n)
    && |fitness| == n && |ticks| == n && |credits| == n
    && (forall j :: 0 <= j < |birds| ==> birds[j].x == cfg.birdX && birds[j].score >= 0)
    && (forall j :: 0 < j < |birds| ==> birds[j].score == 0)
    && (forall j :: 0 <= j < |ge| ==> credits[ge[j]] == birds[j].score && ticks[ge[j]] == frames)
    && (forall g :: 0 <= g < n && g !in ge ==> 1 <= ticks[g] <= frames && credits[g] >= 0)
    && (forall g :: 0 <= g < n ==>
          fitness[g] == 0.1 * ticks[g] as real + 5.0 * credits[g] as real - (if g in ge then 0.0 else 1.0))
  }

  /** One more frame for every live genome. */
  ghost function Ticked(ticks: seq<int>, ge: seq<nat>): (r: seq<int>)
    ensures |r| == |ticks|
  {
    seq(|ticks|, g requires 0 <= g < |ticks| => if g in ge then ticks[g] + 1 else ticks[g])
  }

  /** The credits table with each live genome's entry set to its bird's score. */
  ghost function Posted(credits: seq<int>, ge: seq<nat>, bs: seq<Bird>): (r: seq<int>)
    requires |bs| <= |ge| && forall j :: 0 <= j < |ge| ==> ge[j] < |credits|
    ensures |r| == |credits|
  {
    if bs == [] then credits
    else Posted(credits, ge, bs[..|bs| - 1])[ge[|bs| - 1] := bs[|bs| - 1].score]
  }

  /** With no genome listed twice, each live genome's entry is its bird's
      score and the other entries are untouched. */
  lemma {:induction false} PostedAt(credits: seq<int>, ge: seq<nat>, bs: seq<Bird>)
    requires |bs| <= |ge| && Ascending(ge) && forall j :: 0 <= j < |ge| ==> ge[j] < |credits|
    ensures forall j :: 0 <= j < |bs| ==> Posted(credits, ge, bs)[ge[j]] == bs[j].score
    ensures forall g :: 0 <= g < |credits| && g !in ge ==> Posted(credits, ge, bs)[g] == credits[g]
  {
    if bs != [] {
      var n := |bs| - 1;
      PostedAt(credits, ge, bs[..n]);
      assert forall j :: 0 <= j < n ==> bs[..n][j] == bs[j];
    }
  }

  /** The credit loop keeps the ledger: the credits table absorbs the new
      scores, which only rise. */
  lemma CreditLedger(cfg: Config, n: nat, frames: nat, ps: seq<Pipe>, birds: seq<Bird>, ge: seq<nat>,
                     fitness: seq<real>, ticks: seq<int>, credits: seq<int>)
    requires cfg.Valid() && Ledger(cfg, n, frames, birds, ge, fitness, ticks, credits)
    ensures var c := CreditAll(cfg, ps, birds, ge, fitness);
      && Ledger(cfg, n, frames, c.birds, ge, c.fitness, ticks, Posted(credits, ge, c.birds))
      && forall g :: 0 <= g < n ==> Posted(credits, ge, c.birds)[g] >= credits[g]
  {
    var c := CreditAll(cfg, ps, birds, ge, fitness);
    CreditAllLedger(cfg, ps, birds, ge, fitness);
    if birds != [] {
      LeaderTakesAll(cfg, ps, birds, ge, fitness);
    }
    PostedAt(credits, ge, c.birds);
    var posted := Posted(credits, ge, c.birds);
    forall g | 0 <= g < n
      ensures c.fitness[g] == 0.1 * ticks[g] as real + 5.0 * posted[g] as real - (if g in ge then 0.0 else 1.0)
      ensures posted[g] >= credits[g]
    {
      if g in ge {
        var j :| 0 <= j < |ge| && ge[j] == g;
        assert posted[g] == c.birds[j].score && credits[g] == birds[j].score;
      }
    }
  }

  /** An entry whose index is not marked is still in the list after removal. */
  lemma Survives(ge: seq<nat>, marked: set<nat>, i: nat)
    requires i < |ge|
    ensures i !in marked ==> ge[i] in Without(ge, marked)
  {
    if i !in marked {
      WithoutIsKept(ge, marked);
      KeptCovers(|ge|, marked, i);
      var kept := Kept(|ge|, marked);
      var j :| 0 <= j < |kept| && kept[j] == i;
      assert Without(ge, marked)[j] == ge[i];
    }
  }

  /** In a list without repeats, an entry whose index is marked is gone after removal. */
  lemma Retired(ge: seq<nat>, marked: set<nat>, i: nat)
    requires i < |ge| && Ascending(ge) && i in marked
    ensures ge[i] !in Without(ge, marked)
  {
    WithoutIsKept(ge, marked);
    var kept := Kept(|ge|, marked);
    forall k | 0 <= k < |kept|
      ensures Without(ge, marked)[k] != ge[i]
    {
      assert kept[k] != i;
    }
  }

  /** The hypotheses shared by the retirement lemmas: a frame whose birds
      keep their columns and scores and whose fitness table was charged 0.1
      per live genome and 1 more per marked one. */
  ghost predicate Retiring(cfg: Config, n: nat, frames: nat, birds: seq<Bird>, stepped: seq<Bird>, ge: seq<nat>,
                           fitness: seq<real>, fitness': seq<real>, ticks: seq<int>, credits: seq<int>, marked: set<nat>)
  {
    && Ledger(cfg, n, frames, birds, ge, fitness, ticks, credits)
    && |stepped| == |birds| && |fitness'| == n
    && (forall j :: 0 <= j < |birds| ==> stepped[j].x == birds[j].x && stepped[j].score == birds[j].score)
    && (forall j :: 0 <= j < |ge| ==> fitness'[ge[j]] == Charge(fitness[ge[j]], j in marked))
    && (forall g :: 0 <= g < n && g !in ge ==> fitness'[g] == fitness[g])
  }

  /** After retirement the live list is still ascending, and each remaining
      bird keeps its column, its score and its genome's credits, with one
      more frame played. */
  lemma RetireLive(cfg: Config, n: nat, frames: nat, birds: seq<Bird>, stepped: seq<Bird>, ge: seq<nat>,
                   fitness: seq<real>, fitness': seq<real>, ticks: seq<int>, credits: seq<int>, marked: set<nat>)
    requires Retiring(cfg, n, frames, birds, stepped, ge, fitness, fitness', ticks, credits, marked)
    ensures var birds': seq<Bird>, ge': seq<nat> := Without(stepped, marked), Without(ge, marked);
      && |birds'| == |ge'| && Ascending(ge')
      && forall j :: 0 <= j < |ge'| ==>
           && ge'[j] < n && credits[ge'[j]] == birds'[j].score && Ticked(ticks, ge)[ge'[j]] == frames + 1
           && birds'[j].x == cfg.birdX && birds'[j].score >= 0 && (j > 0 ==> birds'[j].score == 0)
  {
    var birds' := Without(stepped, marked);
    var ge' := Without(ge, marked);
    var kept := Kept(|ge|, marked);
    WithoutIsKept(stepped, marked);
    WithoutIsKept(ge, marked);
    assert Ascending(ge');
    forall j | 0 <= j < |ge'|
      ensures ge'[j] < n && credits[ge'[j]] == birds'[j].score && Ticked(ticks, ge)[ge'[j]] == frames + 1
      ensures birds'[j].x == cfg.birdX && birds'[j].score >= 0 && (j > 0 ==> birds'[j].score == 0)
    {
      var i := kept[j];
      assert ge'[j] == ge[i] && birds'[j] == stepped[i] && ge[i] in ge;
      if j > 0 {
        assert kept[0] < i;
      }
    }
  }

  /** After retirement each genome's fitness still matches the ledger: a
      genome still live gained 0.1, a genome just retired gained 0.1 and lost
      1, any other is untouched. */
  lemma RetireGenome(cfg: Config, n: nat, frames: nat, birds: seq<Bird>, stepped: seq<Bird>, ge: seq<nat>,
                     fitness: seq<real>, fitness': seq<real>, ticks: seq<int>, credits: seq<int>, marked: set<nat>, g: nat)
    requires Retiring(cfg, n, frames, birds, stepped, ge, fitness, fitness', ticks, credits, marked) && g < n
    ensures var ge': seq<nat>, ticks' := Without(ge, marked), Ticked(ticks, ge);
      && fitness'[g] == 0.1 * ticks'[g] as real + 5.0 * credits[g] as real - (if g in ge' then 0.0 else 1.0)
      && (g !in ge' ==> 1 <= ticks'[g] <= frames + 1 && credits[g] >= 0)
  {
    var ge' := Without(ge, marked);
    if g in ge' {
      WithoutIsKept(ge, marked);
      var kept := Kept(|ge|, marked);
      var j :| 0 <= j < |ge'| && ge'[j] == g;
      assert ge[kept[j]] == g && kept[j] !in marked;
    } else if g in ge {
      var i :| 0 <= i < |ge| && ge[i] == g;
      Survives(ge, marked, i);
    }
  }

  /** Retiring the marked birds after a frame keeps the ledger. */
  lemma RetireLedger(cfg: Config, n: nat, frames: nat, birds: seq<Bird>, stepped: seq<Bird>, ge: seq<nat>,
                     fitness: seq<real>, fitness': seq<real>, ticks: seq<int>, credits: seq<int>, marked: set<nat>)
    requires Retiring(cfg, n, frames, birds, stepped, ge, fitness, fitness', ticks, credits, marked)
    ensures Ledger(cfg, n, frames + 1, Without(stepped, marked), Without(ge, marked), fitness', Ticked(ticks, ge), credits)
  {
    RetireLive(cfg, n, frames, birds, stepped, ge, fitness, fitness', ticks, credits, marked);
    forall g | 0 <= g < n
      ensures var ge': seq<nat>, ticks' := Without(ge, marked), Ticked(ticks, ge);
        && fitness'[g] == 0.1 * ticks'[g] as real + 5.0 * credits[g] as real - (if g in ge' then 0.0 else 1.0)
        && (g !in ge' ==> 1 <= ticks'[g] <= frames + 1 && credits[g] >= 0)
    {
      RetireGenome(cfg, n, frames, birds, stepped, ge, fitness, fitness', ticks, credits, marked, g);
    }
  }

  /** The per-bird loop followed by the removal of the crashed birds keeps
      the ledger. */
  lemma StepLedger(cfg: Config, n: nat, frames: nat, birds: seq<Bird>, nets: seq<Policy>, ge: seq<nat>,
                   fitness: seq<real>, ticks: seq<int>, credits: seq<int>, target: Pipe, pipes: seq<Pipe>)
    requires cfg.Valid() && Ledger(cfg, n, frames, birds, ge, fitness, ticks, credits) && |nets| == |birds|
    ensures var stepped := Steered(cfg, nets, birds, target);
      var marked := Elems(CrashedIndices(cfg, stepped, pipes));
      Ledger(cfg, n, frames + 1, Without(stepped, marked), Without(ge, marked),
             Charged(cfg, fitness, ge, stepped, pipes), Ticked(ticks, ge), credits)
  {
    var stepped := Steered(cfg, nets, birds, target);
    var marked := Elems(CrashedIndices(cfg, stepped, pipes));
    var fitness' := Charged(cfg, fitness, ge, stepped, pipes);
    ChargedAt(cfg, fitness, ge, stepped, pipes);
    CrashedIndicesExact(cfg, stepped, pipes);
    assert forall j :: 0 <= j < |ge| ==> (j in marked <==> Crashed(cfg, stepped[j], pipes));
    RetireLedger(cfg, n, frames, birds, stepped, ge, fitness, fitness', ticks, credits, marked);
  }

  /** The record kept across frames: none before the first frame, then a
      genome that has scored at least the record score. */
  ghost predicate Record(n: nat, frames: nat, maxScore: int, best: Option<nat>, credits: seq<int>)
    requires |credits| == n
  {
    && (frames == 0 ==> maxScore == -1 && best == None)
    && (frames > 0 ==> best.Some? && best.value < n && 0 <= maxScore <= credits[best.value])
  }

  /** The state of `eval_genomes` between frames: the live birds with their
      networks and genome numbers (parallel lists), the fitness table over
      all genomes, the pipe row, how many pipes have been spawned, the
      frames played, the record score with its genome, and `best_bird_index`. */
  datatype Flock = Flock(birds: seq<Bird>, live: seq<Policy>, ge: seq<nat>, fitness: seq<real>,
                         pipes: seq<Pipe>, spawned: nat, frames: nat,
                         maxScore: int, best: Option<nat>, bestIdx: int)

  /** The live lists are parallel, every live genome has a fitness entry and
      the record never drops below its initial -1. */
  predicate Parallel(s: Flock) {
    && |s.live| == |s.birds| == |s.ge|
    && (forall j :: 0 <= j < |s.ge| ==> s.ge[j] < |s.fitness|)
    && s.maxScore >= -1
  }

  /** Before the first frame: one fresh bird per network, genome g owning
      bird g, every fitness 0, one pipe at screenWidth + 100, no record. */
  function Start(cfg: Config, nets: seq<Policy>, heights: nat -> int): (s: Flock)
    requires cfg.Valid() && cfg.HeightOk(heights(0))
    ensures Parallel(s)
  {
    Flock(seq(|nets|, _ => NewBird(cfg)), nets, seq(|nets|, j requires 0 <= j < |nets| => j as nat),
          seq(|nets|, _ => 0.0), [NewPipe(cfg, (cfg.screenWidth + 100) as real, heights(0))], 1, 0,
          -1, None, 0)
  }

  /** The bird half of a frame against the row `ps`: every bird steered
      against the head pipe and its genome charged, the record raised to the
      frame's best score (taking `ge[best_bird_index]`), then the crashed
      birds removed with their networks and genome numbers. */
  function Fly(cfg: Config, s: Flock, ps: seq<Pipe>): (r: Flock)
    requires cfg.Valid() && Parallel(s) && |ps| > 0
    ensures Parallel(r) && |r.fitness| == |s.fitness| && |r.birds| <= |s.birds|
    ensures r.pipes == s.pipes && r.spawned == s.spawned && r.frames == s.frames
    ensures r.maxScore >= s.maxScore && (r.maxScore == s.maxScore ==> r.best == s.best)
  {
    var stepped := Steered(cfg, s.live, s.birds, ps[0]);
    var marked := Elems(CrashedIndices(cfg, stepped, ps));
    var scan := BestScan(stepped, s.bestIdx);
    var rise := scan.0 > s.maxScore;
    WithoutIsKept(stepped, marked);
    WithoutIsKept(s.live, marked);
    WithoutIsKept(s.ge, marked);
    s.(birds := Without(stepped, marked), live := Without(s.live, marked), ge := Without(s.ge, marked),
       fitness := Charged(cfg, s.fitness, s.ge, stepped, ps),
       maxScore := if rise then scan.0 else s.maxScore,
       best := if rise then Some(s.ge[scan.1]) else s.best,
       bestIdx := scan.1)
  }

  /** The credit half of a frame against the row `ps`: every pipe moved and
      credited to the first live bird past it, then the off-screen pipes
      dropped. */
  function Credit(cfg: Config, ps: seq<Pipe>, f: Flock): (r: Flock)
    requires Parallel(f)
    ensures Parallel(r) && |r.fitness| == |f.fitness| && r.ge == f.ge
    ensures r.maxScore == f.maxScore && r.best == f.best && r.bestIdx == f.bestIdx
  {
    var c := CreditAll(cfg, ps, f.birds, f.ge, f.fitness);
    f.(birds := c.birds, fitness := c.fitness, pipes := OnScreen(cfg, c.pipes))
  }

  /** One frame against the pipe row `ps` (the row after spawning): fly
      against the head pipe, count the frame, then credit and prune; a row
      longer than the old one means one more pipe was spawned. */
  function Advance(cfg: Config, ps: seq<Pipe>, s: Flock): (r: Flock)
    requires cfg.Valid() && Parallel(s) && |ps| > 0
    ensures Parallel(r) && r.frames == s.frames + 1 && |r.fitness| == |s.fitness| && |r.birds| <= |s.birds|
    ensures r.maxScore >= s.maxScore && (r.maxScore == s.maxScore ==> r.best == s.best)
  {
    var f := Fly(cfg, s, ps).(frames := s.frames + 1);
    Credit(cfg, ps, f).(spawned := if |ps| > |s.pipes| then s.spawned + 1 else s.spawned)
  }

  /** One frame of `eval_genomes` once the scrolling layers have moved: spawn
      by spacing, then advance against the new row. */
  function Frame(cfg: Config, heights: nat -> int, s: Flock): (r: Flock)
    requires cfg.Valid() && (forall k: nat :: cfg.HeightOk(heights(k))) && Parallel(s)
    ensures Parallel(r) && r.frames == s.frames + 1 && |r.fitness| == |s.fitness| && |r.birds| <= |s.birds|
    ensures r.maxScore >= s.maxScore && (r.maxScore == s.maxScore ==> r.best == s.best)
  {
    Advance(cfg, SpawnSpaced(cfg, s.pipes, heights(s.spawned)), s)
  }

  /** Frames played until no bird is left or the frame budget is spent. */
  function Run(cfg: Config, heights: nat -> int, s: Flock): (r: Flock)
    requires cfg.Valid() && (forall k: nat :: cfg.HeightOk(heights(k))) && Parallel(s)
    ensures Parallel(r)
    decreases MaxFramesPerGen - s.frames
  {
    if |s.birds| == 0 || s.frames >= MaxFramesPerGen then s
    else Run(cfg, heights, Frame(cfg, heights, s))
  }

  /** The tables a run fills in, frame by frame: each frame adds one to the
      frames played of every genome live at its start, and posts every
      surviving bird's score, the pipes credited to it, to its genome. */
  ghost function Counts(cfg: Config, heights: nat -> int, s: Flock, ticks: seq<int>, credits: seq<int>)
    : (r: (seq<int>, seq<int>))
    requires cfg.Valid() && (forall k: nat :: cfg.HeightOk(heights(k))) && Parallel(s)
    requires |credits| == |s.fitness|
    decreases MaxFramesPerGen - s.frames
  {
    if |s.birds| == 0 || s.frames >= MaxFramesPerGen then (ticks, credits)
    else
      var f := Frame(cfg, heights, s);
      Counts(cfg, heights, f, Ticked(ticks, s.ge), Posted(credits, f.ge, f.birds))
  }

  /** What the timeout branch does with `best_bird_index`: nothing (no bird
      left or no timeout), save the genome at that index, or fail on an index
      outside the live list. */
  datatype TimeoutSave = NotSaved | Saved(genome: nat) | IndexError

  /** The timeout branch at the end of a generation. */
  function TimeoutOf(s: Flock): TimeoutSave {
    if s.frames >= MaxFramesPerGen && |s.birds| > 0 then
      if 0 <= s.bestIdx < |s.ge| then Saved(s.ge[s.bestIdx]) else IndexError
    else NotSaved
  }

  /** A bird survives its frame exactly when the crash test on its steered
      self against the frame's row fails: the removed genomes are precisely
      the crashed ones. */
  lemma FrameRetires(cfg: Config, heights: nat -> int, s: Flock, j: nat)
    requires cfg.Valid() && (forall k: nat :: cfg.HeightOk(heights(k))) && Parallel(s)
    requires Ascending(s.ge) && j < |s.ge|
    ensures var ps := SpawnSpaced(cfg, s.pipes, heights(s.spawned));
      s.ge[j] in Frame(cfg, heights, s).ge <==> !Crashed(cfg, Steer(cfg, s.live[j], s.birds[j], ps[0]), ps)
  {
    var ps := SpawnSpaced(cfg, s.pipes, heights(s.spawned));
    var stepped := Steered(cfg, s.live, s.birds, ps[0]);
    var marked := Elems(CrashedIndices(cfg, stepped, ps));
    var ge' := Without(s.ge, marked);
    assert Frame(cfg, heights, s).ge == ge';
    CrashedIndicesExact(cfg, stepped, ps);
    assert j in marked <==> Crashed(cfg, stepped[j], ps);
    Survives(s.ge, marked, j);
    if j in marked {
      Retired(s.ge, marked, j);
    }
  }

  /** Policies that never ask for a jump, whatever they observe. */
  ghost predicate NeverFlaps(nets: seq<Policy>) {
    forall j, o :: 0 <= j < |nets| ==> nets[j](o) <= 0.5
  }

  /** Every bird of `bs` has the height and velocity of `b`. */
  ghost predicate AllAt(bs: seq<Bird>, b: Bird) {
    forall j :: 0 <= j < |bs| ==> bs[j].y == b.y && bs[j].velocity == b.velocity
  }

  /** Every live bird is where a fresh bird that never jumped is after the
      frames played so far. */
  ghost predicate Falling(cfg: Config, s: Flock)
    requires cfg.Valid()
  {
    AllAt(s.birds, FallN(cfg, NewBird(cfg), s.frames))
  }

  /** Steered by policies that never flap, birds that fly together fall together. */
  lemma SteeredFall(cfg: Config, nets: seq<Policy>, bs: seq<Bird>, target: Pipe, b: Bird)
    requires cfg.Valid() && |nets| == |bs| && NeverFlaps(nets) && AllAt(bs, b)
    ensures AllAt(Steered(cfg, nets, bs, target), Fall(cfg, b))
  {
    var stepped := Steered(cfg, nets, bs, target);
    forall j | 0 <= j < |bs|
      ensures stepped[j].y == Fall(cfg, b).y && stepped[j].velocity == Fall(cfg, b).velocity
    {
      assert nets[j](Observe(cfg, bs[j], target)) <= 0.5;
    }
  }

  /** Removal keeps birds that fly together together. */
  lemma AllAtWithout(bs: seq<Bird>, marked: set<nat>, b: Bird)
    requires AllAt(bs, b)
    ensures AllAt(Without(bs, marked), b)
  {
    WithoutIsKept(bs, marked);
  }

  /** Removal keeps policies that never flap. */
  lemma NeverFlapsWithout(nets: seq<Policy>, marked: set<nat>)
    requires NeverFlaps(nets)
    ensures NeverFlaps(Without(nets, marked))
  {
    WithoutIsKept(nets, marked);
    var kept := Kept(|nets|, marked);
    forall j, o | 0 <= j < |Without(nets, marked)|
      ensures Without(nets, marked)[j](o) <= 0.5
    {
      assert Without(nets, marked)[j] == nets[kept[j]];
    }
  }

  /** No bird left after removing the crashed ones has crashed. */
  lemma SurvivorsSafe(cfg: Config, bs: seq<Bird>, ps: seq<Pipe>, marked: set<nat>)
    requires cfg.Valid() && marked == Elems(CrashedIndices(cfg, bs, ps))
    ensures forall j :: 0 <= j < |Without(bs, marked)| ==> !Crashed(cfg, Without(bs, marked)[j], ps)
  {
    WithoutIsKept(bs, marked);
    CrashedIndicesExact(cfg, bs, ps);
    var kept := Kept(|bs|, marked);
    forall j | 0 <= j < |Without(bs, marked)|
      ensures !Crashed(cfg, Without(bs, marked)[j], ps)
    {
      assert kept[j] !in marked;
    }
  }

  /** Under policies that never flap, the bird half moves every live bird
      one step down the same fall, and the birds it keeps have not crashed. */
  lemma FlyFalls(cfg: Config, s: Flock, ps: seq<Pipe>, b: Bird)
    requires cfg.Valid() && Parallel(s) && |ps| > 0
    requires NeverFlaps(s.live) && AllAt(s.birds, b)
    ensures var f := Fly(cfg, s, ps);
      && NeverFlaps(f.live) && AllAt(f.birds, Fall(cfg, b))
      && forall j :: 0 <= j < |f.birds| ==> !Crashed(cfg, f.birds[j], ps)
  {
    var stepped := Steered(cfg, s.live, s.birds, ps[0]);
    var marked := Elems(CrashedIndices(cfg, stepped, ps));
    assert Fly(cfg, s, ps).birds == Without(stepped, marked) && Fly(cfg, s, ps).live == Without(s.live, marked);
    SteeredFall(cfg, s.live, s.birds, ps[0], b);
    AllAtWithout(stepped, marked, Fall(cfg, b));
    NeverFlapsWithout(s.live, marked);
    SurvivorsSafe(cfg, stepped, ps, marked);
  }

  /** Under policies that never flap, a frame keeps every live bird on the
      free-fall path, and a bird that survives it is above the ground. */
  lemma FrameFalls(cfg: Config, heights: nat -> int, s: Flock)
    requires cfg.Valid() && (forall k: nat :: cfg.HeightOk(heights(k))) && Parallel(s)
    requires NeverFlaps(s.live) && Falling(cfg, s)
    ensures var r := Frame(cfg, heights, s);
      && NeverFlaps(r.live) && Falling(cfg, r)
      && (|r.birds| > 0 ==>
            FallN(cfg, NewBird(cfg), r.frames).y + cfg.birdSize as real < (cfg.screenHeight - cfg.baseHeight) as real)
  {
    var ps := SpawnSpaced(cfg, s.pipes, heights(s.spawned));
    var now := FallN(cfg, NewBird(cfg), s.frames);
    var f := Fly(cfg, s, ps);
    FlyFalls(cfg, s, ps, now);
    FrameParts(cfg, heights, s);
    CreditAllKeepsFlight(cfg, ps, f.birds, f.ge, f.fitness);
    assert FallN(cfg, NewBird(cfg), s.frames + 1) == Fall(cfg, now);
  }

  /** The birds, policies and frame count after a frame, from its two halves. */
  lemma FrameParts(cfg: Config, heights: nat -> int, s: Flock)
    requires cfg.Valid() && (forall k: nat :: cfg.HeightOk(heights(k))) && Parallel(s)
    ensures var ps := SpawnSpaced(cfg, s.pipes, heights(s.spawned));
      var f, r := Fly(cfg, s, ps), Frame(cfg, heights, s);
      && r.birds == CreditAll(cfg, ps, f.birds, f.ge, f.fitness).birds
      && r.live == f.live && r.frames == s.frames + 1
  {
    AdvanceIs(cfg, SpawnSpaced(cfg, s.pipes, heights(s.spawned)), s);
  }

  /** Under policies that never flap, a run that still has birds at its end
      has played the whole budget with the free-fall path still above the
      ground. */
  lemma {:induction false} FallingRun(cfg: Config, heights: nat -> int, s: Flock)
    requires cfg.Valid() && (forall k: nat :: cfg.HeightOk(heights(k))) && Parallel(s)
    requires NeverFlaps(s.live) && Falling(cfg, s) && s.frames <= MaxFramesPerGen
    requires |s.birds| > 0 && s.frames > 0 ==>
      FallN(cfg, NewBird(cfg), s.frames).y + cfg.birdSize as real < (cfg.screenHeight - cfg.baseHeight) as real
    ensures var r := Run(cfg, heights, s);
      |r.birds| > 0 ==>
        && r.frames == MaxFramesPerGen
        && FallN(cfg, NewBird(cfg), MaxFramesPerGen).y + cfg.birdSize as real < (cfg.screenHeight - cfg.baseHeight) as real
    decreases MaxFramesPerGen - s.frames
  {
    if |s.birds| > 0 && s.frames < MaxFramesPerGen {
      FrameFalls(cfg, heights, s);
      FallingRun(cfg, heights, Frame(cfg, heights, s));
    }
  }

  /** Population shrinkage: when no policy ever flaps and a free fall from
      the start height reaches the ground within the frame budget, every
      bird is removed before the budget runs out. */
  lemma Extinction(cfg: Config, nets: seq<Policy>, heights: nat -> int)
    requires cfg.Valid() && (forall k: nat :: cfg.HeightOk(heights(k))) && NeverFlaps(nets)
    requires var b := MaxFramesPerGen as real;
      (cfg.screenHeight / 2) as real + cfg.gravity * b * (b + 1.0) / 2.0 + cfg.birdSize as real
        >= (cfg.screenHeight - cfg.baseHeight) as real
    ensures var r := Run(cfg, heights, Start(cfg, nets, heights));
      r.birds == [] && r.ge == []
  {
    StartFalls(cfg, nets, heights);
    GroundWithinBudget(cfg);
    FallingRun(cfg, heights, Start(cfg, nets, heights));
  }

  /** At the start every bird is a fresh bird, at the head of the fall. */
  lemma StartFalls(cfg: Config, nets: seq<Policy>, heights: nat -> int)
    requires cfg.Valid() && cfg.HeightOk(heights(0))
    ensures var s := Start(cfg, nets, heights);
      s.frames == 0 && s.live == nets && Falling(cfg, s)
  {
  }

  /** The closed form of the fall puts a fresh bird on the ground within the
      frame budget when the configuration says so. */
  lemma GroundWithinBudget(cfg: Config)
    requires cfg.Valid()
    requires var b := MaxFramesPerGen as real;
      (cfg.screenHeight / 2) as real + cfg.gravity * b * (b + 1.0) / 2.0 + cfg.birdSize as real
        >= (cfg.screenHeight - cfg.baseHeight) as real
    ensures FallN(cfg, NewBird(cfg), MaxFramesPerGen).y + cfg.birdSize as real
            >= (cfg.screenHeight - cfg.baseHeight) as real
  {
    FallClosedForm(cfg, NewBird(cfg), MaxFramesPerGen);
  }

  /** The bird half keeps the ledger with one more frame played, sets the
      record from the first live bird, and leaves `best_bird_index` at 0. */
  lemma FlyLedger(cfg: Config, n: nat, s: Flock, ps: seq<Pipe>, ticks: seq<int>, credits: seq<int>)
    requires cfg.Valid() && Parallel(s) && |s.birds| > 0 && |ps| > 0
    requires Booked(cfg, n, s, ticks, credits)
    ensures var f := Fly(cfg, s, ps);
      && Ledger(cfg, n, s.frames + 1, f.birds, f.ge, f.fitness, Ticked(ticks, s.ge), credits)
  {
    var f := Fly(cfg, s, ps);
    var stepped := Steered(cfg, s.live, s.birds, ps[0]);
    var marked := Elems(CrashedIndices(cfg, stepped, ps));
    assert f.birds == Without(stepped, marked) && f.ge == Without(s.ge, marked);
    assert f.fitness == Charged(cfg, s.fitness, s.ge, stepped, ps);
    StepLedger(cfg, n, s.frames, s.birds, s.live, s.ge, s.fitness, ticks, credits, ps[0], ps);
  }

  /** The bird half raises the record to the first live bird's score, which
      no steered bird beats, and leaves `best_bird_index` at 0: only the
      first live bird has scored. */
  lemma FlyRecord(cfg: Config, n: nat, s: Flock, ps: seq<Pipe>, ticks: seq<int>, credits: seq<int>)
    requires cfg.Valid() && Parallel(s) && |s.birds| > 0 && |ps| > 0
    requires Booked(cfg, n, s, ticks, credits)
    ensures var f := Fly(cfg, s, ps);
      Record(n, s.frames + 1, f.maxScore, f.best, credits) && f.bestIdx == 0
    ensures var f, stepped := Fly(cfg, s, ps), Steered(cfg, s.live, s.birds, ps[0]);
      && f.maxScore == (if stepped[0].score > s.maxScore then stepped[0].score else s.maxScore)
      && f.best == (if stepped[0].score > s.maxScore then Some(s.ge[0]) else s.best)
      && forall j :: 0 <= j < |stepped| ==> f.maxScore >= stepped[j].score
  {
    var stepped := Steered(cfg, s.live, s.birds, ps[0]);
    var scan := BestScan(stepped, s.bestIdx);
    assert scan == (credits[s.ge[0]], 0) by {
      assert stepped[0].score == s.birds[0].score >= 0;
      assert forall j :: 0 < j < |stepped| ==> stepped[j].score == 0;
      BestScanFirst(stepped, s.bestIdx);
    }
    var f := Fly(cfg, s, ps);
    assert f.maxScore == (if scan.0 > s.maxScore then scan.0 else s.maxScore);
    assert f.best == (if scan.0 > s.maxScore then Some(s.ge[0]) else s.best);
    assert f.bestIdx == 0;
  }

  /** Best-candidate stability: every genome already removed was credited
      no more than the record score. */
  ghost predicate Stable(n: nat, ge: seq<nat>, maxScore: int, credits: seq<int>)
    requires |credits| == n
  {
    forall g :: 0 <= g < n && g !in ge ==> credits[g] <= maxScore
  }

  /** The ledger, the record and its stability for a flock, with
      `best_bird_index` at 0: what every frame of `eval_genomes` keeps. */
  ghost predicate Booked(cfg: Config, n: nat, s: Flock, ticks: seq<int>, credits: seq<int>)
  {
    match s
    case Flock(birds, _, ge, fitness, _, _, frames, maxScore, best, bestIdx) =>
      && |credits| == n
      && Ledger(cfg, n, frames, birds, ge, fitness, ticks, credits)
      && Record(n, frames, maxScore, best, credits) && bestIdx == 0
      && Stable(n, ge, maxScore, credits)
  }

  /** The credit half keeps the ledger, the record and its stability: the
      credits table absorbs the new scores of the live genomes, which only
      rise, and leaves the removed genomes' entries alone. */
  lemma CreditFlockLedger(cfg: Config, n: nat, spawned: nat, ps: seq<Pipe>, f: Flock,
                          ticks: seq<int>, credits: seq<int>)
    returns (credits': seq<int>)
    requires cfg.Valid() && Parallel(f) && Booked(cfg, n, f, ticks, credits)
    ensures Booked(cfg, n, Credit(cfg, ps, f).(spawned := spawned), ticks, credits')
    ensures credits' == Posted(credits, f.ge, Credit(cfg, ps, f).birds)
  {
    CreditLedger(cfg, n, f.frames, ps, f.birds, f.ge, f.fitness, ticks, credits);
    var c := CreditAll(cfg, ps, f.birds, f.ge, f.fitness);
    credits' := Posted(credits, f.ge, c.birds);
    PostedAt(credits, f.ge, c.birds);
  }

  /** The flying half of a frame, with the frame counter advanced, keeps
      the ledger, the record and its stability. */
  lemma FlyBooked(cfg: Config, n: nat, s: Flock, ps: seq<Pipe>, ticks: seq<int>, credits: seq<int>)
    requires cfg.Valid() && Parallel(s) && |s.birds| > 0 && |ps| > 0
    requires Booked(cfg, n, s, ticks, credits)
    ensures Booked(cfg, n, Fly(cfg, s, ps).(frames := s.frames + 1), Ticked(ticks, s.ge), credits)
  {
    FlyLedger(cfg, n, s, ps, ticks, credits);
    FlyRecord(cfg, n, s, ps, ticks, credits);
    FlyStable(cfg, n, s, ps, ticks, credits);
  }

  /** A genome removed in the bird half scored no more than the frame's new
      record, and those removed earlier stay below it since it only rises. */
  lemma FlyStable(cfg: Config, n: nat, s: Flock, ps: seq<Pipe>, ticks: seq<int>, credits: seq<int>)
    requires cfg.Valid() && Parallel(s) && |s.birds| > 0 && |ps| > 0
    requires Booked(cfg, n, s, ticks, credits)
    ensures var f := Fly(cfg, s, ps); Stable(n, f.ge, f.maxScore, credits)
  {
    var f := Fly(cfg, s, ps);
    var stepped := Steered(cfg, s.live, s.birds, ps[0]);
    FlyRecord(cfg, n, s, ps, ticks, credits);
    forall g | 0 <= g < n && g !in f.ge
      ensures credits[g] <= f.maxScore
    {
      if g in s.ge {
        var j :| 0 <= j < |s.ge| && s.ge[j] == g;
        assert credits[g] == stepped[j].score;
      }
    }
  }

  /** `Advance` unfolded into its two halves, as one equation. */
  lemma AdvanceIs(cfg: Config, ps: seq<Pipe>, s: Flock)
    requires cfg.Valid() && Parallel(s) && |ps| > 0
    ensures Advance(cfg, ps, s) == Credit(cfg, ps, Fly(cfg, s, ps).(frames := s.frames + 1)).(spawned := if |ps| > |s.pipes| then s.spawned + 1 else s.spawned)
  {
  }

  /** One frame keeps the ledger and the record, and `best_bird_index`
      stays 0: the first live bird is the only one that ever scores. */
  lemma FrameLedger(cfg: Config, n: nat, ps: seq<Pipe>, s: Flock, ticks: seq<int>, credits: seq<int>)
    returns (ticks': seq<int>, credits': seq<int>)
    requires cfg.Valid() && Parallel(s) && |s.birds| > 0 && |ps| > 0
    requires Booked(cfg, n, s, ticks, credits)
    ensures Booked(cfg, n, Advance(cfg, ps, s), ticks', credits')
    ensures ticks' == Ticked(ticks, s.ge)
    ensures credits' == Posted(credits, Advance(cfg, ps, s).ge, Advance(cfg, ps, s).birds)
  {
    FlyBooked(cfg, n, s, ps, ticks, credits);
    ticks' := Ticked(ticks, s.ge);
    var f := Fly(cfg, s, ps).(frames := s.frames + 1);
    credits' := CreditFlockLedger(cfg, n, if |ps| > |s.pipes| then s.spawned + 1 else s.spawned, ps, f, ticks', credits);
    AdvanceIs(cfg, ps, s);
  }

  /** A whole run keeps the ledger and the record, never passes the frame
      budget, and ends with no bird left or at the budget; it plays at least
      one frame when there is a bird and budget left. */
  lemma {:induction false} RunLedger(cfg: Config, heights: nat -> int, n: nat, s: Flock, ticks: seq<int>, credits: seq<int>)
    returns (ticks': seq<int>, credits': seq<int>)
    requires cfg.Valid() && (forall k: nat :: cfg.HeightOk(heights(k))) && Parallel(s)
    requires Ledger(cfg, n, s.frames, s.birds, s.ge, s.fitness, ticks, credits)
    requires Record(n, s.frames, s.maxScore, s.best, credits) && s.bestIdx == 0
    requires Stable(n, s.ge, s.maxScore, credits)
    requires s.frames <= MaxFramesPerGen
    ensures |credits'| == n
    ensures (ticks', credits') == Counts(cfg, heights, s, ticks, credits)
    ensures var r := Run(cfg, heights, s);
      && Ledger(cfg, n, r.frames, r.birds, r.ge, r.fitness, ticks', credits')
      && Record(n, r.frames, r.maxScore, r.best, credits') && r.bestIdx == 0
      && Stable(n, r.ge, r.maxScore, credits')
      && s.frames <= r.frames <= MaxFramesPerGen
      && (|r.birds| == 0 || r.frames == MaxFramesPerGen)
      && (|s.birds| > 0 && s.frames < MaxFramesPerGen ==> r.frames > s.frames)
    decreases MaxFramesPerGen - s.frames
  {
    if |s.birds| == 0 || s.frames >= MaxFramesPerGen {
      ticks', credits' := ticks, credits;
    } else {
      var t, c := FrameLedger(cfg, n, SpawnSpaced(cfg, s.pipes, heights(s.spawned)), s, ticks, credits);
      ticks', credits' := RunLedger(cfg, heights, n, Frame(cfg, heights, s), t, c);
    }
  }

  /** The start satisfies the ledger with nothing played and nothing credited. */
  lemma StartLedger(cfg: Config, nets: seq<Policy>, heights: nat -> int)
    requires cfg.Valid() && cfg.HeightOk(heights(0))
    ensures var s := Start(cfg, nets, heights);
      && Ledger(cfg, |nets|, 0, s.birds, s.ge, s.fitness, seq(|nets|, _ => 0), seq(|nets|, _ => 0))
      && Record(|nets|, 0, s.maxScore, s.best, seq(|nets|, _ => 0)) && s.bestIdx == 0
      && Stable(|nets|, s.ge, s.maxScore, seq(|nets|, _ => 0))
  {
    var s := Start(cfg, nets, heights);
    forall g | 0 <= g < |nets|
      ensures g in s.ge
    {
      assert s.ge[g] == g;
    }
  }

  /** How a generation ends: within the frame budget, with no bird left or
      at the budget, after at least one frame exactly when there is a
      genome; and the timeout save finds the first survivor, never an index
      outside the live list. */
  lemma RunOutcome(cfg: Config, nets: seq<Policy>, heights: nat -> int)
    requires cfg.Valid() && forall k: nat :: cfg.HeightOk(heights(k))
    ensures var r := Run(cfg, heights, Start(cfg, nets, heights));
      && r.frames <= MaxFramesPerGen
      && (r.ge == [] || r.frames == MaxFramesPerGen)
      && (r.frames == 0 <==> |nets| == 0)
      && TimeoutOf(r) == if r.ge == [] then NotSaved else Saved(r.ge[0])
  {
    StartLedger(cfg, nets, heights);
    var s := Start(cfg, nets, heights);
    var t, c := RunLedger(cfg, heights, |nets|, s, seq(|nets|, _ => 0), seq(|nets|, _ => 0));
  }

  /** The generation's ledger, over the whole run from the start: every
      genome's fitness is 0.1 per frame its bird played plus 5 per pipe
      credited, minus 1 if it was removed; survivors played every frame; the
      recorded best genome has scored at least the record; and no removed
      genome was credited more than the record. */
  lemma GenerationLedger(cfg: Config, nets: seq<Policy>, heights: nat -> int)
    returns (ticks: seq<int>, credits: seq<int>)
    requires cfg.Valid() && forall k: nat :: cfg.HeightOk(heights(k))
    ensures (ticks, credits) == Counts(cfg, heights, Start(cfg, nets, heights), seq(|nets|, _ => 0), seq(|nets|, _ => 0))
    ensures var r := Run(cfg, heights, Start(cfg, nets, heights));
      && Ledger(cfg, |nets|, r.frames, r.birds, r.ge, r.fitness, ticks, credits)
      && Record(|nets|, r.frames, r.maxScore, r.best, credits)
      && Stable(|nets|, r.ge, r.maxScore, credits)
  {
    StartLedger(cfg, nets, heights);
    var s := Start(cfg, nets, heights);
    ticks, credits := RunLedger(cfg, heights, |nets|, s, seq(|nets|, _ => 0), seq(|nets|, _ => 0));
  }

  /** The per-bird loop of one frame followed by the record update and the
      removal of the crashed birds, highest index first; `Fly` says what
      it computes. */
  method RunBirds(cfg: Config, birds: seq<Bird>, live: seq<Policy>, ge: seq<nat>, fitness: seq<real>,
                  pipes: seq<Pipe>, maxScore: int, best: Option<nat>, bestIdx0: int,
                  ghost s: Flock)
    returns (birds': seq<Bird>, live': seq<Policy>, ge': seq<nat>, fitness': seq<real>,
             maxScore': int, best': Option<nat>, bestIdx: int)
    requires cfg.Valid() && |pipes| > 0
    requires s.birds == birds && s.live == live && s.ge == ge && s.fitness == fitness
    requires s.maxScore == maxScore && s.best == best && s.bestIdx == bestIdx0 && Parallel(s)
    ensures Fly(cfg, s, pipes) == s.(birds := birds', live := live', ge := ge', fitness := fitness',
                                    maxScore := maxScore', best := best', bestIdx := bestIdx)
  {
    var stepped, remove, bestScore;
    stepped, fitness', remove, bestScore, bestIdx := StepBirds(cfg, birds, live, ge, fitness, pipes[0], pipes, bestIdx0);
    maxScore', best' := maxScore, best;
    if bestScore > maxScore {
      maxScore' := bestScore;
      best' := Some(ge[bestIdx]);
    }
    birds', live', ge' := RemoveMarked(stepped, live, ge, remove);
    ghost var f := Fly(cfg, s, pipes);
    assert f.birds == birds';
    assert f.live == live';
    assert f.ge == ge';
    assert f.fitness == fitness';
    assert f.maxScore == maxScore' && f.best == best' && f.bestIdx == bestIdx;
  }

  /** The body of one frame of `eval_genomes` after the scrolling: count the
      frame, spawn by spacing, the bird half against the head pipe, then the
      credit loop and the pruning of off-screen pipes; `Frame` says what it
      computes. */
  method PlayFrame(cfg: Config, heights: nat -> int, s: Flock) returns (r: Flock)
    requires cfg.Valid() && (forall k: nat :: cfg.HeightOk(heights(k))) && Parallel(s)
    ensures r == Frame(cfg, heights, s)
  {
    var row := SpawnSpaced(cfg, s.pipes, heights(s.spawned));
    var spawned := if |row| > |s.pipes| then s.spawned + 1 else s.spawned;
    var birds, live, ge, charged, maxScore, best, bestIdx :=
      RunBirds(cfg, s.birds, s.live, s.ge, s.fitness, row, s.maxScore, s.best, s.bestIdx, s);
    var pipes, fitness;
    pipes, birds, fitness := MoveAndCredit(cfg, row, birds, ge, charged);
    pipes := OnScreen(cfg, pipes);
    r := Flock(birds, live, ge, fitness, pipes, spawned, s.frames + 1, maxScore, best, bestIdx);
    ghost var f := Frame(cfg, heights, s);
    assert f.birds == birds && f.fitness == fitness && f.pipes == pipes;
    assert f.live == live && f.ge == ge && f.spawned == spawned;
    assert f.maxScore == maxScore && f.best == best && f.bestIdx == bestIdx;
  }

  /** The frame loop of `eval_genomes`: scroll the background and the
      ground, then play a frame, while a bird is left and the budget lasts. */
  method Play(cfg: Config, heights: nat -> int, s0: Flock, bg: Background, base: Base) returns (s: Flock)
    requires cfg.Valid() && (forall k: nat :: cfg.HeightOk(heights(k))) && Parallel(s0)
    requires bg.Valid() && base.Valid()
    modifies bg, base
    ensures s == Run(cfg, heights, s0)
    ensures bg.Valid() && base.Valid()
  {
    s := s0;
    while |s.birds| > 0 && s.frames < MaxFramesPerGen
      invariant bg.Valid() && base.Valid()
      invariant Parallel(s) && Run(cfg, heights, s) == Run(cfg, heights, s0)
      decreases MaxFramesPerGen - s.frames
    {
      bg.Update();
      base.Update();
      s := PlayFrame(cfg, heights, s);
    }
  }

  /** The set-up loop of `eval_genomes`: for each genome a network, a fresh
      bird and fitness 0, in genome order. */
  method Hatch(cfg: Config, nets: seq<Policy>)
    returns (birds: seq<Bird>, live: seq<Policy>, ge: seq<nat>, fitness: seq<real>)
    requires cfg.Valid()
    ensures birds == seq(|nets|, _ => NewBird(cfg)) && live == nets
    ensures ge == seq(|nets|, j requires 0 <= j < |nets| => j as nat) && fitness == seq(|nets|, _ => 0.0)
  {
    birds, live, ge, fitness := [], [], [], [];
    var g := 0;
    while g < |nets|
      invariant 0 <= g <= |nets| && |birds| == |live| == |ge| == |fitness| == g
      invariant forall j :: 0 <= j < g ==>
        ge[j] == j && birds[j] == NewBird(cfg) && fitness[j] == 0.0 && live[j] == nets[j]
    {
      fitness := fitness + [0.0];
      live := live + [nets[g]];
      birds := birds + [NewBird(cfg)];
      ge := ge + [g];
      g := g + 1;
    }
  }

  /** `eval_genomes` without rendering: genome g plays with network nets[g];
      all birds share one pipe row and one frame counter. Each frame scrolls,
      spawns by spacing, steers and charges every bird, records the frame's
      best score, removes the crashed birds, then moves the pipes and credits
      the first bird past each, and drops the off-screen pipes. `heights(k)`
      is the height of the k-th pipe spawned. The outcome is `Run` from
      `Start`, whose ledger `GenerationLedger` states. */
  method EvalGenomes(cfg: Config, nets: seq<Policy>, heights: nat -> int)
    returns (fitness: seq<real>, survivors: seq<nat>, maxScore: int, best: Option<nat>, frames: nat,
             save: TimeoutSave)
    requires cfg.Valid()
    requires forall k: nat :: cfg.HeightOk(heights(k))
    ensures var r := Run(cfg, heights, Start(cfg, nets, heights));
      && fitness == r.fitness && survivors == r.ge && maxScore == r.maxScore && best == r.best
      && frames == r.frames && save == TimeoutOf(r)
    ensures frames <= MaxFramesPerGen
    ensures survivors == [] || frames == MaxFramesPerGen
    ensures frames == 0 <==> |nets| == 0
    ensures save == if survivors == [] then NotSaved else Saved(survivors[0])
  {
    var bg := new Background(cfg);
    var base := new Base(cfg);
    var birds, live;
    birds, live, survivors, fitness := Hatch(cfg, nets);
    var pipes := [NewPipe(cfg, (cfg.screenWidth + 100) as real, heights(0))];
    var s := Flock(birds, live, survivors, fitness, pipes, 1, 0, -1, None, 0);
    assert s == Start(cfg, nets, heights);
    s := Play(cfg, heights, s, bg, base);

    fitness, survivors, maxScore, best, frames := s.fitness, s.ge, s.maxScore, s.best, s.frames;
    save := NotSaved;
    if s.frames >= MaxFramesPerGen && |s.birds| > 0 {
      save := if 0 <= s.bestIdx < |s.ge| then Saved(s.ge[s.bestIdx]) else IndexError;
    }
    RunOutcome(cfg, nets, heights);
  }
}
