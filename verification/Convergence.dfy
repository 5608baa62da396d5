/** Convergence: against a fixed, hash-linked remote chain the pipeline walks
    back to the fork point and then forward to the remote head. */
module Convergence {
  import opened Stores
  import opened Pipeline
  import opened PipelineRuns

  /** The remote has exactly the blocks up to `height` (at least from `start`
      on), each naming its predecessor, all with different hashes. */
  ghost predicate RemoteChain(chain: map<nat, Header>, start: nat, height: nat) {
    && (forall n :: start < n <= height ==> n in chain)
    && (forall n :: n in chain ==> n <= height)
    && (forall n :: start + 1 < n <= height ==> chain[n].parent == chain[n - 1].hash)
    && (forall m, n :: m in chain && n in chain && chain[m].hash == chain[n].hash ==> m == n)
  }

  predicate SameContent(b: Block, h: Header) {
    b.hash == h.hash && b.parent == h.parent && b.time == h.time
  }

  /** Hashes identify blocks across the store and the remote chain. */
  ghost predicate CollisionFree(blocks: map<nat, Block>, chain: map<nat, Header>) {
    forall m, n :: m in blocks && n in chain && blocks[m].hash == chain[n].hash ==>
                     m == n && SameContent(blocks[m], chain[n])
  }

  /** Every call succeeds and the remote serves `chain`. */
  ghost predicate Honest(env: Env, chain: map<nat, Header>) {
    && env.cursorReadOk && env.fetchOk && env.remote == chain && env.readFails == {}
    && env.rollbackWrites.None? && env.relevant.Some? && env.commitOk
  }

  predicate SameAt(blocks: map<nat, Block>, chain: map<nat, Header>, n: nat) {
    n in blocks && n in chain && blocks[n].hash == chain[n].hash
  }

  /** The highest block at or below `c` that store and remote share, or
      `start`. */
  function ForkPoint(blocks: map<nat, Block>, chain: map<nat, Header>, start: nat, c: nat): (f: nat)
    requires start <= c
    ensures start <= f <= c
    ensures f == start || SameAt(blocks, chain, f)
    ensures forall n :: f < n <= c ==> !SameAt(blocks, chain, n)
  {
    if c == start || SameAt(blocks, chain, c) then c else ForkPoint(blocks, chain, start, c - 1)
  }

  /** The number of steps still to go: back to the fork point, then forward. */
  ghost function Remaining(s: Store, chain: map<nat, Header>, start: nat, height: nat): int
    requires ChainInv(s, start)
  {
    var c := s.book.row.value.number;
    var f := ForkPoint(s.blocks, chain, start, c);
    (c - f) + (height - f)
  }

  /** The whole chain up to the head is stored, and the cursor is on it. */
  ghost predicate Converged(s: Store, chain: map<nat, Header>, start: nat, height: nat) {
    && s.book.row.Some? && s.book.row.value.number == height
    && forall n :: start < n <= height ==> n in s.blocks && n in chain && SameContent(s.blocks[n], chain[n])
  }

  /** The situation during the walk. */
  ghost predicate OnTheWay(s: Store, chain: map<nat, Header>, start: nat, height: nat) {
    && ChainInv(s, start) && RemoteChain(chain, start, height) && CollisionFree(s.blocks, chain)
    && var c := s.book.row.value.number;
    && c <= height
    && (c == height ==> c == start || SameAt(s.blocks, chain, c))
  }

  /** Below a shared block the store and the remote agree all the way down. */
  lemma {:induction false} AgreeBelow(s: Store, chain: map<nat, Header>, start: nat, height: nat, c: nat, n: nat)
    requires ChainInv(s, start) && RemoteChain(chain, start, height) && CollisionFree(s.blocks, chain)
    requires start < n <= c <= s.book.row.value.number && c <= height
    requires SameAt(s.blocks, chain, c)
    ensures n in s.blocks && n in chain && SameContent(s.blocks[n], chain[n])
    decreases c
  {
    if n < c {
      assert s.blocks[c].parent == s.blocks[c - 1].hash && chain[c].parent == chain[c - 1].hash;
      AgreeBelow(s, chain, start, height, c - 1, n);
    }
  }

  /** What an honest step does: back if the cursor's block is not shared,
      forward if it is, nothing at the head. */
  lemma HonestStep(cfg: Config, s: Store, chain: map<nat, Header>, start: nat, height: nat, env: Env)
    requires cfg.threshold == 0 && OnTheWay(s, chain, start, height) && Honest(env, chain)
    ensures var c, s' := s.book.row.value.number, Step(cfg, s, env).0;
            && s'.book.row.Some?
            && if c == height then s' == s
               else if c == start || SameAt(s.blocks, chain, c) then
                 s'.book.row.value.number == c + 1 && s'.blocks == s.blocks[c + 1 := Row(chain[c + 1], Processed)]
               else
                 s'.book.row.value.number == c - 1 && s'.blocks == MarkBlock(s.blocks, c, Orphaned)
  {
    var c := s.book.row.value.number;
    if c < height {
      assert start < c ==> chain[c + 1].parent == chain[c].hash;
      if c == start || SameAt(s.blocks, chain, c) {
        assert !HashTaken(s.blocks, c + 1, chain[c + 1].hash);
        StepCommits(cfg, s, start, env);
      } else {
        StepRollsBack(cfg, s, start, env);
      }
    }
  }

  lemma {:induction false} ForkPointFrame(blocks: map<nat, Block>, blocks': map<nat, Block>, chain: map<nat, Header>, start: nat, c: nat)
    requires start <= c
    requires forall n :: start < n <= c ==> (SameAt(blocks', chain, n) <==> SameAt(blocks, chain, n))
    ensures ForkPoint(blocks', chain, start, c) == ForkPoint(blocks, chain, start, c)
  {
    if c != start && !SameAt(blocks, chain, c) {
      ForkPointFrame(blocks, blocks', chain, start, c - 1);
    }
  }

  /** Each honest step below the head brings the goal one step closer. */
  lemma HonestStepProgress(cfg: Config, s: Store, chain: map<nat, Header>, start: nat, height: nat, env: Env)
    requires cfg.threshold == 0 && OnTheWay(s, chain, start, height) && Honest(env, chain)
    ensures var s' := Step(cfg, s, env).0;
            && OnTheWay(s', chain, start, height)
            && Remaining(s', chain, start, height)
               == if s.book.row.value.number == height then Remaining(s, chain, start, height)
                  else Remaining(s, chain, start, height) - 1
  {
    var c := s.book.row.value.number;
    var s' := Step(cfg, s, env).0;
    HonestStep(cfg, s, chain, start, height, env);
    assert ChainInv(s', start) by {
      StepMoves(cfg, s, start, env);
    }
    if c == height {
    } else if c == start || SameAt(s.blocks, chain, c) {
      ForwardProgress(s, s', chain, start, height);
    } else {
      BackwardProgress(s, s', chain, start, height);
    }
  }

  lemma ForwardProgress(s: Store, s': Store, chain: map<nat, Header>, start: nat, height: nat)
    requires OnTheWay(s, chain, start, height) && ChainInv(s', start)
    requires var c := s.book.row.value.number;
             && c < height && (c == start || SameAt(s.blocks, chain, c))
             && s'.book.row.value.number == c + 1
             && s'.blocks == s.blocks[c + 1 := Row(chain[c + 1], Processed)]
    ensures OnTheWay(s', chain, start, height)
    ensures Remaining(s', chain, start, height) == Remaining(s, chain, start, height) - 1
  {
  }

  lemma BackwardProgress(s: Store, s': Store, chain: map<nat, Header>, start: nat, height: nat)
    requires OnTheWay(s, chain, start, height) && ChainInv(s', start)
    requires var c := s.book.row.value.number;
             && start < c < height && !SameAt(s.blocks, chain, c)
             && s'.book.row.value.number == c - 1
             && s'.blocks == MarkBlock(s.blocks, c, Orphaned)
    ensures OnTheWay(s', chain, start, height)
    ensures Remaining(s', chain, start, height) == Remaining(s, chain, start, height) - 1
  {
    ForkPointFrame(s.blocks, s'.blocks, chain, start, s.book.row.value.number - 1);
  }

  /** A walk of zero remaining steps is at the head with the remote's blocks. */
  lemma NothingRemains(s: Store, chain: map<nat, Header>, start: nat, height: nat)
    requires OnTheWay(s, chain, start, height)
    ensures 0 <= Remaining(s, chain, start, height)
    ensures s.book.row.value.number == height <==> Remaining(s, chain, start, height) == 0
    ensures Remaining(s, chain, start, height) == 0 <==> Converged(s, chain, start, height)
  {
    var c := s.book.row.value.number;
    if c == height && start < c {
      forall n | start < n <= height
        ensures n in s.blocks && n in chain && SameContent(s.blocks[n], chain[n])
      {
        AgreeBelow(s, chain, start, height, c, n);
      }
    }
  }

  lemma {:induction false} HonestRun(cfg: Config, s: Store, chain: map<nat, Header>, start: nat, height: nat, envs: seq<Env>)
    requires cfg.threshold == 0 && OnTheWay(s, chain, start, height)
    requires forall i :: 0 <= i < |envs| ==> Honest(envs[i], chain)
    ensures var s' := Run(cfg, s, envs);
            && OnTheWay(s', chain, start, height)
            && Remaining(s', chain, start, height)
               == if |envs| < Remaining(s, chain, start, height) then Remaining(s, chain, start, height) - |envs| else 0
  {
    NothingRemains(s, chain, start, height);
    if envs != [] {
      var last := |envs| - 1;
      HonestRun(cfg, s, chain, start, height, envs[..last]);
      var mid := Run(cfg, s, envs[..last]);
      NothingRemains(mid, chain, start, height);
      HonestStepProgress(cfg, mid, chain, start, height, envs[last]);
    }
  }

  /** Reorg convergence.  From any state a run can reach, whatever happened
      before, a remote chain that has grown above the cursor is adopted after
      exactly (cursor - fork) + (height - fork) steps, and not before. */
  lemma Converges(cfg: Config, s: Store, chain: map<nat, Header>, start: nat, height: nat, envs: seq<Env>)
    requires cfg.threshold == 0
    requires ChainInv(s, start) && RemoteChain(chain, start, height) && CollisionFree(s.blocks, chain)
    requires s.book.row.value.number < height
    requires forall i :: 0 <= i < |envs| ==> Honest(envs[i], chain)
    ensures Converged(Run(cfg, s, envs), chain, start, height)
            <==> |envs| >= Remaining(s, chain, start, height)
  {
    HonestRun(cfg, s, chain, start, height, envs);
    NothingRemains(Run(cfg, s, envs), chain, start, height);
  }

  /** A remote that is not above the cursor changes nothing, so the condition
      `cursor < height` is needed: at or below it a run converges only if it
      already has. */
  lemma {:induction false} NoGrowthNoChange(cfg: Config, s: Store, chain: map<nat, Header>, start: nat, height: nat, envs: seq<Env>)
    requires cfg.threshold == 0
    requires ChainInv(s, start) && RemoteChain(chain, start, height)
    requires height <= s.book.row.value.number
    requires forall i :: 0 <= i < |envs| ==> Honest(envs[i], chain)
    ensures Run(cfg, s, envs) == s
  {
    if envs != [] {
      NoGrowthNoChange(cfg, s, chain, start, height, envs[..|envs| - 1]);
    }
  }

  /** The same from a fresh cursor: any number of arbitrary steps, then enough
      honest ones.  Completed rollbacks also leave every status right. */
  lemma AnyPastConverges(cfg: Config, start: nat, past: seq<Env>, chain: map<nat, Header>, height: nat, envs: seq<Env>)
    requires cfg.threshold == 0
    requires RemoteChain(chain, start, height)
    requires var s := Run(cfg, Created(start), past);
             && CollisionFree(s.blocks, chain)
             && (s.book.row.Some? ==> s.book.row.value.number < height)
    requires forall i :: 0 <= i < |envs| ==> Honest(envs[i], chain)
    requires |envs| >= 2 * height
    ensures Converged(Run(cfg, Run(cfg, Created(start), past), envs), chain, start, height)
    ensures (forall i :: 0 <= i < |past| ==> Completes(past[i])) ==>
              Settled(Run(cfg, Run(cfg, Created(start), past), envs))
  {
    RunKeepsChain(cfg, start, past);
    var s := Run(cfg, Created(start), past);
    Converges(cfg, s, chain, start, height, envs);
    if forall i :: 0 <= i < |past| ==> Completes(past[i]) {
      SettledAfter(cfg, start, past, chain, envs);
    }
  }

  lemma SettledAfter(cfg: Config, start: nat, past: seq<Env>, chain: map<nat, Header>, envs: seq<Env>)
    requires cfg.threshold == 0
    requires forall i :: 0 <= i < |past| ==> Completes(past[i])
    requires forall i :: 0 <= i < |envs| ==> Honest(envs[i], chain)
    ensures Settled(Run(cfg, Run(cfg, Created(start), past), envs))
  {
    RunConcat(cfg, Created(start), past, envs);
    RunSettled(cfg, start, past + envs);
  }

  lemma {:induction false} RunConcat(cfg: Config, s: Store, a: seq<Env>, b: seq<Env>)
    ensures Run(cfg, s, a + b) == Run(cfg, Run(cfg, s, a), b)
    decreases |b|
  {
    if b == [] {
      assert a + b == a;
    } else {
      RunConcat(cfg, s, a, b[..|b| - 1]);
      assert (a + b)[..|a + b| - 1] == a + b[..|b| - 1];
    }
  }
}
