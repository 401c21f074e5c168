/** The lock-step population evaluator (main.py `eval_genomes`): every live
    bird of a generation plays against one shared pipe row; birds that crash
    are removed after the frame, the first bird past a pipe's right edge is
    credited for it, and the run stops when no bird is left or the frame
    budget is spent. Genomes are numbered 0..n-1 in the order given; the
    fitness each genome ends with is returned as a sequence. */
module Population {
  import opened Options
  import opened GameConfig
  import opened Scrolling
  import opened Birds
  import opened Pipes
  import opened PipeQueue
  import opened Removal
  import opened Evaluation

  /** Strictly increasing, hence free of repetitions. */
  predicate Ascending(s: seq<nat>) {
    forall i, j :: 0 <= i < j < |s| ==> s[i] < s[j]
  }

  /** Among the first n birds, `score` is the highest score and `idx` the
      first index that holds it. */
  predicate FirstBest(birds: seq<Bird>, n: int, score: int, idx: int)
    requires 0 < n <= |birds|
  {
    && 0 <= idx < n && score == birds[idx].score
    && (forall j :: 0 <= j < idx ==> birds[j].score < score)
    && (forall j :: 0 <= j < n ==> birds[j].score <= score)
  }

  /** Every bird of the frame steered by its own network against `target`. */
  function Steered(cfg: Config, nets: seq<Policy>, birds: seq<Bird>, target: Pipe): (r: seq<Bird>)
    requires cfg.Valid() && |nets| == |birds|
    ensures |r| == |birds|
    ensures forall j :: 0 <= j < |birds| ==> r[j].x == birds[j].x && r[j].score == birds[j].score
  {
    seq(|birds|, j requires 0 <= j < |birds| => Steer(cfg, nets[j], birds[j], target))
  }

  /** `remove_indices`: the positions of the crashed birds, in the order the
      loop visits them. */
  function CrashedIndices(cfg: Config, bs: seq<Bird>, pipes: seq<Pipe>): (r: seq<nat>)
    requires cfg.Valid()
    ensures Ascending(r)
    ensures forall k :: 0 <= k < |r| ==> r[k] < |bs|
  {
    if bs == [] then []
    else
      var n := |bs| - 1;
      var front := CrashedIndices(cfg, bs[..n], pipes);
      if Crashed(cfg, bs[n], pipes) then front + [n] else front
  }

  /** The recorded indices are exactly those of the birds that crashed. */
  lemma {:induction false} CrashedIndicesExact(cfg: Config, bs: seq<Bird>, pipes: seq<Pipe>)
    requires cfg.Valid()
    ensures forall k: nat :: k in CrashedIndices(cfg, bs, pipes) <==> k < |bs| && Crashed(cfg, bs[k], pipes)
  {
    if bs != [] {
      var n := |bs| - 1;
      CrashedIndicesExact(cfg, bs[..n], pipes);
      assert forall k :: 0 <= k < n ==> bs[..n][k] == bs[k];
    }
  }

  /** `ge[i].fitness += 0.1`, followed by `ge[i].fitness -= 1` for a crash. */
  function Charge(f: real, hit: bool): real {
    f + 0.1 - (if hit then 1.0 else 0.0)
  }

  /** The fitness table after the birds `bs` were charged in order, the j-th
      bird's charge going to genome ge[j]. */
  function Charged(cfg: Config, fitness: seq<real>, ge: seq<nat>, bs: seq<Bird>, pipes: seq<Pipe>): (r: seq<real>)
    requires cfg.Valid() && |bs| <= |ge|
    requires forall j :: 0 <= j < |ge| ==> ge[j] < |fitness|
    ensures |r| == |fitness|
  {
    if bs == [] then fitness
    else
      var n := |bs| - 1;
      var f := Charged(cfg, fitness, ge, bs[..n], pipes);
      f[ge[n] := Charge(f[ge[n]], Crashed(cfg, bs[n], pipes))]
  }

  /** Since no genome appears twice in `ge`, each charged genome is charged
      exactly once and every other genome keeps its fitness. */
  lemma {:induction false} ChargedAt(cfg: Config, fitness: seq<real>, ge: seq<nat>, bs: seq<Bird>, pipes: seq<Pipe>)
    requires cfg.Valid() && |bs| <= |ge|
    requires Ascending(ge) && forall j :: 0 <= j < |ge| ==> ge[j] < |fitness|
    ensures forall j :: 0 <= j < |bs| ==>
      Charged(cfg, fitness, ge, bs, pipes)[ge[j]] == Charge(fitness[ge[j]], Crashed(cfg, bs[j], pipes))
    ensures forall j :: |bs| <= j < |ge| ==> Charged(cfg, fitness, ge, bs, pipes)[ge[j]] == fitness[ge[j]]
    ensures forall g :: 0 <= g < |fitness| && g !in ge ==> Charged(cfg, fitness, ge, bs, pipes)[g] == fitness[g]
  {
    if bs != [] {
      var n := |bs| - 1;
      ChargedAt(cfg, fitness, ge, bs[..n], pipes);
      assert forall k :: 0 <= k < n ==> bs[..n][k] == bs[k];
    }
  }

  /** The `if bird.score > best_score` scan over the frame's birds: the
      highest score and the index of its first holder, or (-1, idx0) with
      the previous frame's index left in place when there is no bird. */
  function BestScan(bs: seq<Bird>, idx0: int): (r: (int, int))
    ensures bs == [] ==> r == (-1, idx0)
    ensures r.0 >= -1
    ensures r.0 > -1 ==> 0 <= r.1 < |bs| && bs[r.1].score == r.0
  {
    if bs == [] then (-1, idx0)
    else
      var n := |bs| - 1;
      var front := BestScan(bs[..n], idx0);
      if bs[n].score > front.0 then (bs[n].score, n) else front
  }

  /** When no score is negative, the scan over a non-empty frame finds the
      highest score and the first bird holding it. */
  lemma {:induction false} BestScanFirst(bs: seq<Bird>, idx0: int)
    requires bs != [] && forall j :: 0 <= j < |bs| ==> bs[j].score >= 0
    ensures FirstBest(bs, |bs|, BestScan(bs, idx0).0, BestScan(bs, idx0).1)
  {
    var n := |bs| - 1;
    assert forall k :: 0 <= k < n ==> bs[..n][k] == bs[k];
    if n > 0 {
      BestScanFirst(bs[..n], idx0);
    }
  }

  /** The per-bird loop of one frame (the `for i, bird in enumerate(birds)`
      loop): every bird is steered against the head pipe `target`, its
      genome is charged 0.1 and, if the bird crashed, 1 more and its index
      is recorded; the best score among all birds processed (crashed ones
      included) and its first holder's index are tracked on the way. */
  method StepBirds(cfg: Config, birds: seq<Bird>, nets: seq<Policy>, ge: seq<nat>, fitness: seq<real>,
                   target: Pipe, pipes: seq<Pipe>, bestIdx0: int)
    returns (birds': seq<Bird>, fitness': seq<real>, remove: seq<nat>, bestScore: int, bestIdx: int)
    requires cfg.Valid()
    requires |nets| == |birds| == |ge|
    requires forall j :: 0 <= j < |ge| ==> ge[j] < |fitness|
    ensures birds' == Steered(cfg, nets, birds, target)
    ensures fitness' == Charged(cfg, fitness, ge, birds', pipes)
    ensures remove == CrashedIndices(cfg, birds', pipes)
    ensures (bestScore, bestIdx) == BestScan(birds', bestIdx0)
  {
    birds', fitness', remove := [], fitness, [];
    bestScore, bestIdx := -1, bestIdx0;
    ghost var all := Steered(cfg, nets, birds, target);
    var i: nat := 0;
    while i < |birds|
      invariant 0 <= i <= |birds| && birds' == all[..i]
      invariant fitness' == Charged(cfg, fitness, ge, birds', pipes)
      invariant remove == CrashedIndices(cfg, birds', pipes)
      invariant (bestScore, bestIdx) == BestScan(birds', bestIdx0)
    {
      var b := Steer(cfg, nets[i], birds[i], target);
      var hit := Crashed(cfg, b, pipes);
      StepOne(cfg, fitness, ge, birds', b, pipes, bestIdx0);
      assert all[..i + 1] == all[..i] + [b];
      birds' := birds' + [b];
      fitness' := fitness'[ge[i] := Charge(fitness'[ge[i]], hit)];
      if hit {
        remove := remove + [i];
      }
      if b.score > bestScore {
        bestScore := b.score;
        bestIdx := i;
      }
      i := i + 1;
    }
    assert all[..i] == all;
  }

  /** One more bird processed: its charge, its crash index and its score
      extend what the earlier birds produced. */
  lemma StepOne(cfg: Config, fitness: seq<real>, ge: seq<nat>, bs: seq<Bird>, b: Bird,
                pipes: seq<Pipe>, idx0: int)
    requires cfg.Valid() && |bs| < |ge|
    requires forall j :: 0 <= j < |ge| ==> ge[j] < |fitness|
    ensures Charged(cfg, fitness, ge, bs + [b], pipes)
            == Charged(cfg, fitness, ge, bs, pipes)[ge[|bs|] := Charge(Charged(cfg, fitness, ge, bs, pipes)[ge[|bs|]], Crashed(cfg, b, pipes))]
    ensures CrashedIndices(cfg, bs + [b], pipes)
            == CrashedIndices(cfg, bs, pipes) + (if Crashed(cfg, b, pipes) then [|bs|] else [])
    ensures BestScan(bs + [b], idx0)
            == if b.score > BestScan(bs, idx0).0 then (b.score, |bs|) else BestScan(bs, idx0)
  {
    assert (bs + [b])[..|bs|] == bs;
  }

  /** What the pipe-credit loop of one frame works on: the pipe being
      credited, the birds and the genomes' fitness table. */
  datatype Tally = Tally(pipe: Pipe, birds: seq<Bird>, fitness: seq<real>)

  /** The inner credit loop `for i, bird in enumerate(birds)` for one pipe,
      over the first n birds: the first bird whose column is past the pipe's
      right edge, while the pipe is not yet passed, flags the pipe, scores 1
      and earns its genome 5. */
  function PassScan(cfg: Config, p: Pipe, bs: seq<Bird>, ge: seq<nat>, fitness: seq<real>, n: nat): (t: Tally)
    requires n <= |bs| <= |ge| && forall j :: 0 <= j < |ge| ==> ge[j] < |fitness|
    ensures |t.birds| == |bs| && |t.fitness| == |fitness|
    ensures t.pipe == p || t.pipe == p.(passed := true)
    ensures forall j :: 0 <= j < |bs| ==> t.birds[j].x == bs[j].x
  {
    if n == 0 then Tally(p, bs, fitness)
    else
      var t := PassScan(cfg, p, bs, ge, fitness, n - 1);
      var b := t.birds[n - 1];
      if Passes(t.pipe, b.x, TrailingEdge(cfg)) then
        Tally(t.pipe.(passed := true), t.birds[n - 1 := b.(score := b.score + 1)],
              t.fitness[ge[n - 1] := t.fitness[ge[n - 1]] + 5.0])
      else t
  }

  /** One pipe's credit touches only scores: every bird keeps its height
      and velocity. */
  lemma {:induction false} PassScanKeepsFlight(cfg: Config, p: Pipe, bs: seq<Bird>, ge: seq<nat>,
                                               fitness: seq<real>, n: nat)
    requires n <= |bs| <= |ge| && forall j :: 0 <= j < |ge| ==> ge[j] < |fitness|
    ensures var t := PassScan(cfg, p, bs, ge, fitness, n);
      forall j :: 0 <= j < |bs| ==> t.birds[j].y == bs[j].y && t.birds[j].velocity == bs[j].velocity
  {
    if n > 0 {
      PassScanKeepsFlight(cfg, p, bs, ge, fitness, n - 1);
    }
  }

  /** The first of the first n birds whose column is past the right edge of
      pipe p, or n when there is none. */
  function FirstPasser(cfg: Config, p: Pipe, bs: seq<Bird>, n: nat): (k: nat)
    requires n <= |bs|
    ensures k <= n
    ensures k < n ==> p.x + TrailingEdge(cfg) < bs[k].x as real
    ensures forall j :: 0 <= j < k ==> !(p.x + TrailingEdge(cfg) < bs[j].x as real)
  {
    if n == 0 then 0
    else
      var k := FirstPasser(cfg, p, bs, n - 1);
      if k < n - 1 then k
      else if p.x + TrailingEdge(cfg) < bs[n - 1].x as real then n - 1
      else n
  }

  /** Birds with the same columns have the same first passer. */
  lemma FirstPasserByColumn(cfg: Config, p: Pipe, as_: seq<Bird>, bs: seq<Bird>)
    requires |as_| == |bs| && forall j :: 0 <= j < |bs| ==> as_[j].x == bs[j].x
    ensures FirstPasser(cfg, p, as_, |as_|) == FirstPasser(cfg, p, bs, |bs|)
  {
  }

  /** The inner loop credits exactly one bird, the first passer, and only
      when the pipe was not yet passed; otherwise nothing changes. */
  lemma {:induction false} PassScanCreditsFirst(cfg: Config, p: Pipe, bs: seq<Bird>, ge: seq<nat>, fitness: seq<real>, n: nat)
    requires n <= |bs| <= |ge| && forall j :: 0 <= j < |ge| ==> ge[j] < |fitness|
    ensures p.passed || FirstPasser(cfg, p, bs, n) == n ==>
      PassScan(cfg, p, bs, ge, fitness, n) == Tally(p, bs, fitness)
    ensures !p.passed && FirstPasser(cfg, p, bs, n) < n ==>
      var k := FirstPasser(cfg, p, bs, n);
      PassScan(cfg, p, bs, ge, fitness, n) ==
        Tally(p.(passed := true), bs[k := bs[k].(score := bs[k].score + 1)], fitness[ge[k] := fitness[ge[k]] + 5.0])
  {
    if n > 0 {
      PassScanCreditsFirst(cfg, p, bs, ge, fitness, n - 1);
      var k0 := FirstPasser(cfg, p, bs, n - 1);
      var t := PassScan(cfg, p, bs, ge, fitness, n - 1);
      var r := PassScan(cfg, p, bs, ge, fitness, n);
      if p.passed {
        assert t == Tally(p, bs, fitness);
        assert r == t;
      } else if k0 < n - 1 {
        assert t.pipe.passed;
        assert r == t;
      } else {
        assert t == Tally(p, bs, fitness);
      }
    }
  }

  /** The inner credit loop for one pipe (`for i, bird in enumerate(birds)`
      under `for pipe in pipes`): the pipe, the birds and the fitness table
      are updated in the order the loop visits the birds. */
  method CreditPipe(cfg: Config, p: Pipe, bs: seq<Bird>, ge: seq<nat>, fitness: seq<real>)
    returns (p': Pipe, bs': seq<Bird>, fitness': seq<real>)
    requires |bs| <= |ge| && forall j :: 0 <= j < |ge| ==> ge[j] < |fitness|
    ensures Tally(p', bs', fitness') == PassScan(cfg, p, bs, ge, fitness, |bs|)
  {
    p', bs', fitness' := p, bs, fitness;
    var i := 0;
    while i < |bs'|
      invariant 0 <= i <= |bs|
      invariant Tally(p', bs', fitness') == PassScan(cfg, p, bs, ge, fitness, i)
    {
      if !p'.passed && bs'[i].x as real > p'.x + cfg.pipeWidth as real {
        p' := p'.(passed := true);
        bs' := bs'[i := bs'[i].(score := bs'[i].score + 1)];
        fitness' := fitness'[ge[i] := fitness'[ge[i]] + 5.0];
      }
      i := i + 1;
    }
  }

  /** The pipe row, the birds and the fitness table after a frame's credit loop. */
  datatype Credits = Credits(pipes: seq<Pipe>, birds: seq<Bird>, fitness: seq<real>)

  /** The credit loop of a frame: every pipe in order moves, then scans the
      birds as `PassScan` does, the birds' scores carried from pipe to pipe. */
  function CreditAll(cfg: Config, ps: seq<Pipe>, bs: seq<Bird>, ge: seq<nat>, fitness: seq<real>): (c: Credits)
    requires |bs| <= |ge| && forall j :: 0 <= j < |ge| ==> ge[j] < |fitness|
    ensures |c.pipes| == |ps| && |c.birds| == |bs| && |c.fitness| == |fitness|
    ensures forall j :: 0 <= j < |bs| ==> c.birds[j].x == bs[j].x
  {
    if ps == [] then Credits([], bs, fitness)
    else
      var n := |ps| - 1;
      var c := CreditAll(cfg, ps[..n], bs, ge, fitness);
      var t := PassScan(cfg, Moved(cfg, ps[n]), c.birds, ge, c.fitness, |c.birds|);
      Credits(c.pipes + [t.pipe], t.birds, t.fitness)
  }

  /** A frame's credit loop touches only scores: every bird keeps its
      height and velocity. */
  lemma {:induction false} CreditAllKeepsFlight(cfg: Config, ps: seq<Pipe>, bs: seq<Bird>, ge: seq<nat>,
                                                fitness: seq<real>)
    requires |bs| <= |ge| && forall j :: 0 <= j < |ge| ==> ge[j] < |fitness|
    ensures var c := CreditAll(cfg, ps, bs, ge, fitness);
      forall j :: 0 <= j < |bs| ==> c.birds[j].y == bs[j].y && c.birds[j].velocity == bs[j].velocity
  {
    if ps != [] {
      var n := |ps| - 1;
      CreditAllKeepsFlight(cfg, ps[..n], bs, ge, fitness);
      var c := CreditAll(cfg, ps[..n], bs, ge, fitness);
      PassScanKeepsFlight(cfg, Moved(cfg, ps[n]), c.birds, ge, c.fitness, |c.birds|);
    }
  }

  /** `for pipe in pipes: pipe.update(); <credit loop>`, updating the pipes in place. */
  method MoveAndCredit(cfg: Config, ps: seq<Pipe>, bs: seq<Bird>, ge: seq<nat>, fitness: seq<real>)
    returns (ps': seq<Pipe>, bs': seq<Bird>, fitness': seq<real>)
    requires |bs| <= |ge| && forall j :: 0 <= j < |ge| ==> ge[j] < |fitness|
    ensures Credits(ps', bs', fitness') == CreditAll(cfg, ps, bs, ge, fitness)
  {
    ps', bs', fitness' := ps, bs, fitness;
    var k := 0;
    while k < |ps'|
      invariant 0 <= k <= |ps| == |ps'|
      invariant ps'[..k] == CreditAll(cfg, ps[..k], bs, ge, fitness).pipes && ps'[k..] == ps[k..]
      invariant bs' == CreditAll(cfg, ps[..k], bs, ge, fitness).birds
      invariant fitness' == CreditAll(cfg, ps[..k], bs, ge, fitness).fitness
    {
      assert ps[..k + 1][..k] == ps[..k] && ps[k] == ps'[k];
      var p := Moved(cfg, ps'[k]);
      p, bs', fitness' := CreditPipe(cfg, p, bs', ge, fitness');
      ps' := ps'[k := p];
      k := k + 1;
      assert ps'[..k] == ps'[..k - 1] + [p];
    }
    assert ps[..k] == ps;
  }

  /** Sum of the birds' scores. */
  function ScoreSum(bs: seq<Bird>): int {
    if bs == [] then 0 else ScoreSum(bs[..|bs| - 1]) + bs[|bs| - 1].score
  }

  /** Crediting one bird raises the score sum by one. */
  lemma {:induction false} ScoreSumBump(bs: seq<Bird>, k: nat)
    requires k < |bs|
    ensures ScoreSum(bs[k := bs[k].(score := bs[k].score + 1)]) == ScoreSum(bs) + 1
  {
    var n := |bs| - 1;
    var bs' := bs[k := bs[k].(score := bs[k].score + 1)];
    if k < n {
      ScoreSumBump(bs[..n], k);
      assert bs'[..n] == bs[..n][k := bs[k].(score := bs[k].score + 1)];
    } else {
      assert bs'[..n] == bs[..n];
    }
  }

  /** Each pipe of the row moves by pipeSpeed and ends the frame flagged
      exactly when it was flagged already or some bird is past its right
      edge; order and heights are kept. */
  lemma {:induction false} CreditAllPipes(cfg: Config, ps: seq<Pipe>, bs: seq<Bird>, ge: seq<nat>, fitness: seq<real>)
    requires |bs| <= |ge| && forall j :: 0 <= j < |ge| ==> ge[j] < |fitness|
    ensures forall k :: 0 <= k < |ps| ==>
      CreditAll(cfg, ps, bs, ge, fitness).pipes[k] ==
        (var m := Moved(cfg, ps[k]);
         if !m.passed && FirstPasser(cfg, m, bs, |bs|) < |bs| then m.(passed := true) else m)
  {
    if ps != [] {
      var n := |ps| - 1;
      CreditAllPipes(cfg, ps[..n], bs, ge, fitness);
      var c := CreditAll(cfg, ps[..n], bs, ge, fitness);
      var m := Moved(cfg, ps[n]);
      PassScanCreditsFirst(cfg, m, c.birds, ge, c.fitness, |c.birds|);
      FirstPasserByColumn(cfg, m, c.birds, bs);
      var t := PassScan(cfg, m, c.birds, ge, c.fitness, |c.birds|);
      assert t.pipe == if !m.passed && FirstPasser(cfg, m, bs, |bs|) < |bs| then m.(passed := true) else m;
      var r := CreditAll(cfg, ps, bs, ge, fitness).pipes;
      assert r == c.pipes + [t.pipe];
      forall k | 0 <= k < |ps|
        ensures r[k] == (var m := Moved(cfg, ps[k]);
                         if !m.passed && FirstPasser(cfg, m, bs, |bs|) < |bs| then m.(passed := true) else m)
      {
        if k < n {
          assert r[k] == c.pipes[k] && ps[..n][k] == ps[k];
        }
      }
    }
  }

  /** One pipe's scan: a bird's score rises by the credit it gets, its genome
      earns 5 per credit, nothing else changes, and the score sum rises by
      one exactly when the pipe's flag goes up. */
  lemma PassScanLedger(cfg: Config, m: Pipe, bs: seq<Bird>, ge: seq<nat>, fitness: seq<real>)
    requires |bs| <= |ge| && Ascending(ge) && forall j :: 0 <= j < |ge| ==> ge[j] < |fitness|
    ensures var t := PassScan(cfg, m, bs, ge, fitness, |bs|);
      && ScoreSum(t.birds) + (if m.passed then 1 else 0) == ScoreSum(bs) + (if t.pipe.passed then 1 else 0)
      && (forall j :: 0 <= j < |bs| ==> t.birds[j] == bs[j].(score := t.birds[j].score) && t.birds[j].score >= bs[j].score)
      && (forall j :: 0 <= j < |bs| ==>
            t.fitness[ge[j]] == fitness[ge[j]] + 5.0 * (t.birds[j].score - bs[j].score) as real)
      && (forall g :: 0 <= g < |fitness| && g !in ge ==> t.fitness[g] == fitness[g])
  {
    PassScanCreditsFirst(cfg, m, bs, ge, fitness, |bs|);
    var k := FirstPasser(cfg, m, bs, |bs|);
    if !m.passed && k < |bs| {
      ScoreSumBump(bs, k);
      assert forall j :: 0 <= j < |bs| && j != k ==> ge[j] != ge[k];
    }
  }

  /** The frame's credit loop as a ledger: scores only rise, by one per pipe
      whose flag goes up; each genome earns 5 per point its bird scored;
      genomes without a bird keep their fitness. */
  lemma {:induction false} CreditAllLedger(cfg: Config, ps: seq<Pipe>, bs: seq<Bird>, ge: seq<nat>, fitness: seq<real>)
    requires |bs| <= |ge| && Ascending(ge) && forall j :: 0 <= j < |ge| ==> ge[j] < |fitness|
    ensures var c := CreditAll(cfg, ps, bs, ge, fitness);
      && ScoreSum(c.birds) + PassedCount(ps) == ScoreSum(bs) + PassedCount(c.pipes)
      && (forall j :: 0 <= j < |bs| ==> c.birds[j] == bs[j].(score := c.birds[j].score) && c.birds[j].score >= bs[j].score)
      && (forall j :: 0 <= j < |bs| ==>
            c.fitness[ge[j]] == fitness[ge[j]] + 5.0 * (c.birds[j].score - bs[j].score) as real)
      && (forall g :: 0 <= g < |fitness| && g !in ge ==> c.fitness[g] == fitness[g])
  {
    if ps != [] {
      var n := |ps| - 1;
      CreditAllLedger(cfg, ps[..n], bs, ge, fitness);
      var c := CreditAll(cfg, ps[..n], bs, ge, fitness);
      var m := Moved(cfg, ps[n]);
      PassScanLedger(cfg, m, c.birds, ge, c.fitness);
      var t := PassScan(cfg, m, c.birds, ge, c.fitness, |c.birds|);
      var r := CreditAll(cfg, ps, bs, ge, fitness);
      assert r.pipes == c.pipes + [t.pipe] && r.birds == t.birds && r.fitness == t.fitness;
      assert (c.pipes + [t.pipe])[..n] == c.pipes;
      assert PassedCount(r.pipes) == PassedCount(c.pipes) + (if t.pipe.passed then 1 else 0);
      assert PassedCount(ps) == PassedCount(ps[..n]) + (if m.passed then 1 else 0);
      forall j | 0 <= j < |bs|
        ensures r.fitness[ge[j]] == fitness[ge[j]] + 5.0 * (r.birds[j].score - bs[j].score) as real
      {
        assert t.fitness[ge[j]] == c.fitness[ge[j]] + 5.0 * (t.birds[j].score - c.birds[j].score) as real;
      }
    }
  }

  /** Birds that share one column, as all birds of a generation do: only the
      first bird of the list is ever credited. */
  lemma {:induction false} LeaderTakesAll(cfg: Config, ps: seq<Pipe>, bs: seq<Bird>, ge: seq<nat>, fitness: seq<real>)
    requires |bs| <= |ge| && forall j :: 0 <= j < |ge| ==> ge[j] < |fitness|
    requires forall j :: 0 <= j < |bs| ==> bs[j].x == bs[0].x
    ensures forall j :: 0 < j < |bs| ==> CreditAll(cfg, ps, bs, ge, fitness).birds[j] == bs[j]
  {
    if ps != [] {
      var n := |ps| - 1;
      LeaderTakesAll(cfg, ps[..n], bs, ge, fitness);
      var c := CreditAll(cfg, ps[..n], bs, ge, fitness);
      var m := Moved(cfg, ps[n]);
      PassScanCreditsFirst(cfg, m, c.birds, ge, c.fitness, |c.birds|);
      var k := FirstPasser(cfg, m, c.birds, |c.birds|);
      assert k == 0 || k == |bs|;
    }
  }
}
