/** Every step of the pipeline is a run of the gap machine's pipeline actions. */
module GapPipeline {
  import opened Options
  import opened Stores
  import opened Pipeline
  import opened GapMachine
  import PipelineRuns
  import Reorg

  ghost function Abstract(s: Store, start: nat, workers: seq<Worker>): World
    requires s.book.row.Some?
  {
    World(start, s.book.row.value.number, s.blocks.Keys, s.missing, None, workers)
  }

  lemma {:induction false} SafePointInRange(blocks: map<nat, Block>, fails: set<nat>, current: nat, depth: nat, maxDepth: int, start: nat)
    requires current in blocks
    requires forall n :: n in blocks ==> start < n
    ensures var r := Reorg.SafePointFrom(blocks, fails, current, depth, maxDepth);
            r.Safe? ==> start <= r.block < current
  {
    if Reorg.Broken(blocks, current) && depth + 1 <= Reorg.EffectiveDepth(maxDepth) {
      SafePointInRange(blocks, fails, current - 1, depth + 1, maxDepth, start);
    }
  }

  lemma RollBackIsActions(s: Store, start: nat, workers: seq<Worker>, safe: nat, safeHash: string, env: Env) returns (acts: seq<Action>)
    requires s.book.row.Some? && start <= safe <= s.book.row.value.number
    ensures var s' := RollBack(s, safe, safeHash, env).0;
            s'.book.row.Some? && Abstract(s', start, workers) == DoAll(Abstract(s, start, workers), acts)
  {
    acts := [];
    var k, length := PipelineRuns.RollBackAfter(s, safe, safeHash, env);
    if length - 1 <= k {
      acts := [Retreat(safe)];
      DoOne(Abstract(s, start, workers), Retreat(safe));
    }
  }

  lemma PersistIsActions(s: Store, start: nat, workers: seq<Worker>, h: Header, env: Env) returns (acts: seq<Action>)
    requires s.book.row.Some?
    ensures var s' := Persist(s, s.book.row.value.number + 1, h, env).0;
            s'.book.row.Some? && Abstract(s', start, workers) == DoAll(Abstract(s, start, workers), acts)
  {
    acts := [];
    if Persist(s, s.book.row.value.number + 1, h, env).1 == Again {
      acts := [Action.Commit];
      DoOne(Abstract(s, start, workers), Action.Commit);
    }
  }

  /** From the block request on: nothing, a commit, or a retreat. */
  lemma FollowIsActions(cfg: Config, s: Store, start: nat, workers: seq<Worker>, env: Env) returns (acts: seq<Action>)
    requires s.book.row.Some? && forall n :: n in s.blocks ==> start < n
    ensures var s' := Follow(cfg, s, env).0;
            s'.book.row.Some? && Abstract(s', start, workers) == DoAll(Abstract(s, start, workers), acts)
  {
    acts := [];
    var target := s.book.row.value.number + 1;
    if env.fetchOk && target in env.remote {
      var h := env.remote[target];
      match Reorg.Compare(s.blocks, env.readFails, target, h.parent, cfg.maxDepth) {
        case CheckFailed =>
        case Detected(safe, safeHash, _) =>
          SafePointInRange(s.blocks, env.readFails, target - 1, 1, cfg.maxDepth, start);
          acts := RollBackIsActions(s, start, workers, safe, safeHash, env);
        case NoReorg =>
          acts := PersistIsActions(s, start, workers, h, env);
      }
    }
  }

  lemma JumpIsActions(s: Store, start: nat, workers: seq<Worker>, to: nat, env: Env)
    requires s.book.row.Some? && s.book.row.value.number < to && env.addOk
    ensures var (s', jumped) := JumpToHead(s, s.book.row.value.number + 1, to, env);
            && s'.book.row.Some?
            && Abstract(s', start, workers)
               == DoAll(Abstract(s, start, workers), [AddGap(to), if jumped then Leap else Abandon])
  {
    var x := Abstract(s, start, workers);
    var jumped := JumpToHead(s, s.book.row.value.number + 1, to, env).1;
    DoOne(x, AddGap(to));
    DoSnoc(x, [AddGap(to)], if jumped then Leap else Abandon);
    assert [AddGap(to)] + [if jumped then Leap else Abandon] == [AddGap(to), if jumped then Leap else Abandon];
  }

  /** Every step of the pipeline, with any threshold and any answers, is a run
      of the actions above, so its effect on the tables keeps the law. */
  lemma StepIsActions(cfg: Config, s: Store, start: nat, workers: seq<Worker>, env: Env) returns (acts: seq<Action>)
    requires s.book.row.Some? && forall n :: n in s.blocks ==> start < n
    ensures var s' := Step(cfg, s, env).0;
            s'.book.row.Some? && Abstract(s', start, workers) == DoAll(Abstract(s, start, workers), acts)
  {
    acts := [];
    if env.cursorReadOk {
      assert Step(cfg, s, env) == Proceed(cfg, s, env);
      if ShouldJump(cfg, s.book.row.value.number, env) && env.addOk {
        acts := LagIsActions(cfg, s, start, workers, env);
      } else {
        acts := FollowIsActions(cfg, s, start, workers, env);
      }
    }
  }

  lemma LagIsActions(cfg: Config, s: Store, start: nat, workers: seq<Worker>, env: Env) returns (acts: seq<Action>)
    requires s.book.row.Some? && forall n :: n in s.blocks ==> start < n
    requires ShouldJump(cfg, s.book.row.value.number, env) && env.addOk
    ensures var s' := Proceed(cfg, s, env).0;
            s'.book.row.Some? && Abstract(s', start, workers) == DoAll(Abstract(s, start, workers), acts)
  {
    var to := env.head.value;
    var (s1, jumped) := JumpToHead(s, s.book.row.value.number + 1, to, env);
    JumpIsActions(s, start, workers, to, env);
    acts := [AddGap(to), if jumped then Leap else Abandon];
    if !jumped {
      var rest := FollowIsActions(cfg, s1, start, workers, env);
      DoConcat(Abstract(s, start, workers), acts, rest);
      acts := acts + rest;
    }
  }

  /** Hence a pipeline step with the gap jump on, seen as one step, keeps the
      law too. */
  lemma StepKeepsLaw(cfg: Config, s: Store, start: nat, workers: seq<Worker>, env: Env)
    requires s.book.row.Some? && Inv(Abstract(s, start, workers))
    ensures var s' := Step(cfg, s, env).0;
            s'.book.row.Some? && Inv(Abstract(s', start, workers))
  {
    var x := Abstract(s, start, workers);
    assert forall n :: n in s.blocks ==> n in x.stored;
    var acts := StepIsActions(cfg, s, start, workers, env);
    DoAllKeeps(x, acts);
  }
}
