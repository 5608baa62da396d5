/** What every run of the pipeline keeps, whatever the remote, the database and
    the emitter answer (gap jump off). */
module PipelineRuns {
  import opened Options
  import opened Cursors
  import opened Stores
  import opened Pipeline
  import Reorg

  /** The stored chain: from `start` up to the cursor every block is stored and
      names its predecessor; nothing is stored at or below `start`; the cursor
      carries the hash of its block; no hash is stored twice. */
  ghost predicate ChainInv(s: Store, start: nat) {
    && s.book.row.Some?
    && start <= s.book.row.value.number
    && (forall n :: n in s.blocks ==> start < n)
    && (forall n :: start < n <= s.book.row.value.number ==> n in s.blocks)
    && (forall n :: start + 1 < n <= s.book.row.value.number ==> s.blocks[n].parent == s.blocks[n - 1].hash)
    && s.book.row.value.hash == (if start < s.book.row.value.number then s.blocks[s.book.row.value.number].hash else "")
    && (forall m, n :: m in s.blocks && n in s.blocks && s.blocks[m].hash == s.blocks[n].hash ==> m == n)
  }

  /** The statuses tell which blocks are on the chain: those up to the cursor
      are processed, those above it orphaned. */
  ghost predicate Settled(s: Store) {
    && s.book.row.Some?
    && forall n :: n in s.blocks ==>
         s.blocks[n].status == if n <= s.book.row.value.number then Processed else Orphaned
  }

  /** The state right after the cursor is created. */
  function Created(start: nat): Store {
    EMPTY.(book := Fresh(start))
  }

  // ---------------------------------------------------------------------
  // One step
  // ---------------------------------------------------------------------

  /** On such a chain a mismatch always has the block below the cursor as its
      safe point, whatever the depth limit, unless a read fails. */
  lemma SafePointIsPredecessor(s: Store, start: nat, fails: set<nat>, parent: string, maxDepth: int)
    requires ChainInv(s, start)
    ensures var c := s.book.row.value.number;
            match Reorg.Compare(s.blocks, fails, c + 1, parent, maxDepth)
            case NoReorg => c == start || s.blocks[c].hash == parent
            case CheckFailed => c in fails || (start < c && s.blocks[c].hash != parent && c - 1 in fails)
            case Detected(safe, h, depth) =>
              && start < c && s.blocks[c].hash != parent
              && safe == c - 1 && depth == 1
              && h == if start < safe then s.blocks[safe].hash else ""
  {
    var c := s.book.row.value.number;
    assert c !in s.blocks ==> c == start;
    if start < c {
      assert start < c - 1 ==> s.blocks[c].parent == s.blocks[c - 1].hash;
      assert start == c - 1 ==> c - 1 !in s.blocks;
    }
  }

  /** The writes of the rollback the pipeline performs: one block, its
      transactions, then the cursor. */
  lemma PlanShape(s: Store, safe: nat, safeHash: string)
    requires s.book.row.Some?
    ensures Reorg.Plan(s, safe + 1, safe, safeHash)
            == Reorg.WritesFor(s.txs, safe + 1) + Reorg.CursorWrites(s.book.row.value.state, safe, safeHash)
  {
    assert Reorg.BlockWrites(s.txs, safe, safe) == [];
  }

  /** The hashes invalidated by the first `k` writes. */
  function Struck(hashes: seq<string>, k: nat): seq<string> {
    if k == 0 then [] else if k - 1 < |hashes| then hashes[..k - 1] else hashes
  }

  /** The tables after `k` writes of a rollback of the block above `safe`. */
  ghost predicate AfterWrites(s: Store, s': Store, safe: nat, safeHash: string, k: nat, length: nat) {
    && s.book.row.Some? && s'.book.row.Some?
    && s'.blocks == (if k == 0 then s.blocks else MarkBlock(s.blocks, safe + 1, Orphaned))
    && s'.missing == s.missing && s'.failed == s.failed
    && Reorg.SameRows(s.txs, s'.txs)
    && s'.txs == Reorg.InvalidateAll(s.txs, Struck(HashesAt(s.txs, safe + 1), k))
    && s'.book.row.value.state == (if k <= |Reorg.WritesFor(s.txs, safe + 1)| then s.book.row.value.state
                                   else if k < length then State.Reorg else Scanning)
    && (if k < length - 1
        then s'.book.row.value.number == s.book.row.value.number && s'.book.row.value.hash == s.book.row.value.hash
        else s'.book.row.value.number == safe && s'.book.row.value.hash == safeHash)
  }

  lemma BlockPrefix(s: Store, safe: nat, k: nat)
    requires k <= |Reorg.WritesFor(s.txs, safe + 1)|
    ensures var s' := Reorg.ApplyAll(s, Reorg.WritesFor(s.txs, safe + 1)[..k]);
            s' == s.(blocks := if k == 0 then s.blocks else MarkBlock(s.blocks, safe + 1, Orphaned),
                     txs := Reorg.InvalidateAll(s.txs, Struck(HashesAt(s.txs, safe + 1), k)))
  {
    var block, hashes := Reorg.WritesFor(s.txs, safe + 1), HashesAt(s.txs, safe + 1);
    assert [] + block[..k] == block[..k];
    assert hashes[..|hashes|] == hashes;
    assert Reorg.InvalidateAll(s.txs, []) == s.txs;
    Reorg.ApplyWritesFor(s, [], safe + 1, k);
  }

  /** The tables after any prefix of the rollback plan for the block above
      `safe`: the block is orphaned from the first write on, and the cursor
      moves with the last write but one. */
  lemma RollbackPrefix(s: Store, safe: nat, safeHash: string, k: nat)
    requires s.book.row.Some?
    requires k <= |Reorg.Plan(s, safe + 1, safe, safeHash)|
    ensures var plan := Reorg.Plan(s, safe + 1, safe, safeHash);
            && |Reorg.WritesFor(s.txs, safe + 1)| + 2 <= |plan|
            && AfterWrites(s, Reorg.ApplyAll(s, plan[..k]), safe, safeHash, k, |plan|)
  {
    PlanShape(s, safe, safeHash);
    var plan := Reorg.Plan(s, safe + 1, safe, safeHash);
    var block := Reorg.WritesFor(s.txs, safe + 1);
    var cursor := Reorg.CursorWrites(s.book.row.value.state, safe, safeHash);
    if k <= |block| {
      assert plan[..k] == block[..k];
      BlockPrefix(s, safe, k);
    } else {
      assert plan[..k] == block + cursor[..k - |block|];
      WholeBlockPrefix(s, safe, safeHash, k - |block|);
    }
  }

  lemma WholeBlockPrefix(s: Store, safe: nat, safeHash: string, j: nat)
    requires s.book.row.Some?
    requires 0 < j <= |Reorg.CursorWrites(s.book.row.value.state, safe, safeHash)|
    ensures var block := Reorg.WritesFor(s.txs, safe + 1);
            var cursor := Reorg.CursorWrites(s.book.row.value.state, safe, safeHash);
            AfterWrites(s, Reorg.ApplyAll(s, block + cursor[..j]), safe, safeHash, |block| + j, |block| + |cursor|)
  {
    var block := Reorg.WritesFor(s.txs, safe + 1);
    var cursor := Reorg.CursorWrites(s.book.row.value.state, safe, safeHash);
    Reorg.ApplyConcat(s, block, cursor[..j]);
    WholeBlock(s, safe);
    MidPrefix(s, Reorg.ApplyAll(s, block), safe, safeHash, j);
  }

  lemma MidPrefix(s: Store, mid: Store, safe: nat, safeHash: string, j: nat)
    requires s.book.row.Some?
    requires mid == s.(blocks := MarkBlock(s.blocks, safe + 1, Orphaned),
                       txs := Reorg.InvalidateAll(s.txs, HashesAt(s.txs, safe + 1)))
    requires 0 < j <= |Reorg.CursorWrites(s.book.row.value.state, safe, safeHash)|
    ensures var block := |Reorg.WritesFor(s.txs, safe + 1)|;
            var cursor := Reorg.CursorWrites(s.book.row.value.state, safe, safeHash);
            AfterWrites(s, Reorg.ApplyAll(mid, cursor[..j]), safe, safeHash, block + j, block + |cursor|)
  {
    var block := |Reorg.WritesFor(s.txs, safe + 1)|;
    var cursor := Reorg.CursorWrites(s.book.row.value.state, safe, safeHash);
    CursorPrefix(mid, safe, safeHash, j);
  }

  lemma WholeBlock(s: Store, safe: nat)
    ensures Reorg.ApplyAll(s, Reorg.WritesFor(s.txs, safe + 1))
            == s.(blocks := MarkBlock(s.blocks, safe + 1, Orphaned),
                  txs := Reorg.InvalidateAll(s.txs, HashesAt(s.txs, safe + 1)))
  {
    var block := Reorg.WritesFor(s.txs, safe + 1);
    BlockPrefix(s, safe, |block|);
    assert block[..|block|] == block;
  }

  lemma CursorPrefix(s: Store, safe: nat, safeHash: string, j: nat)
    requires s.book.row.Some?
    requires j <= |Reorg.CursorWrites(s.book.row.value.state, safe, safeHash)|
    ensures var ws := Reorg.CursorWrites(s.book.row.value.state, safe, safeHash);
            var s' := Reorg.ApplyAll(s, ws[..j]);
            && s'.book.row.Some? && s' == s.(book := s'.book)
            && (if j < |ws| - 1
                then s'.book.row.value.number == s.book.row.value.number && s'.book.row.value.hash == s.book.row.value.hash
                else s'.book.row.value.number == safe && s'.book.row.value.hash == safeHash)
            && (0 < j ==> s'.book.row.value.state == if j < |ws| then State.Reorg else Scanning)
  {
    var ws := Reorg.CursorWrites(s.book.row.value.state, safe, safeHash);
    Reorg.CursorPart(s, safe, safeHash, j);
    assert ws[..|ws|] == ws;
  }

  /** How a step can move the cursor with the gap jump off: one forward, with
      the new block stored; one back, on a mismatch; or not at all.  In
      particular no answer of the environment makes it skip a block, and a
      failed request leaves blocks and cursor alone. */
  ghost predicate Moved(s: Store, s': Store, env: Env) {
    && s.book.row.Some? && s'.book.row.Some?
    && var c, c' := s.book.row.value.number, s'.book.row.value.number;
    && (|| (c' == c + 1 && c' in env.remote && s'.blocks == s.blocks[c' := Row(env.remote[c'], Processed)])
        || (c' + 1 == c && c + 1 in env.remote && c in s.blocks && env.remote[c + 1].parent != s.blocks[c].hash
            && s'.blocks == MarkBlock(s.blocks, c, Orphaned))
        || (c' == c && (s'.blocks == s.blocks || (env.rollbackWrites.Some? && s'.blocks == MarkBlock(s.blocks, c, Orphaned)))))
    && (!env.fetchOk ==> c' == c && s'.blocks == s.blocks)
  }

  lemma PersistMoves(s: Store, start: nat, env: Env)
    requires ChainInv(s, start) && s.book.row.value.number + 1 in env.remote && env.fetchOk
    requires var c := s.book.row.value.number; c == start || s.blocks[c].hash == env.remote[c + 1].parent
    ensures var c := s.book.row.value.number;
            var s' := Persist(s, c + 1, env.remote[c + 1], env).0;
            Moved(s, s', env) && ChainInv(s', start)
  {
  }

  lemma RollBackMoves(s: Store, start: nat, safeHash: string, env: Env)
    requires ChainInv(s, start) && start < s.book.row.value.number
    requires s.book.row.value.number + 1 in env.remote && env.fetchOk
    requires var c := s.book.row.value.number;
             && env.remote[c + 1].parent != s.blocks[c].hash
             && safeHash == if start < c - 1 then s.blocks[c - 1].hash else ""
    ensures var s' := RollBack(s, s.book.row.value.number - 1, safeHash, env).0;
            Moved(s, s', env) && ChainInv(s', start)
  {
    var c := s.book.row.value.number;
    var k, length := RollBackAfter(s, c - 1, safeHash, env);
  }

  /** A rollback of the pipeline, as a number of writes done. */
  lemma RollBackAfter(s: Store, safe: nat, safeHash: string, env: Env) returns (k: nat, length: nat)
    requires s.book.row.Some?
    ensures k <= length && |Reorg.WritesFor(s.txs, safe + 1)| + 2 <= length
    ensures k < length <==> env.rollbackWrites.Some? && env.rollbackWrites.value < length
    ensures k < length ==> k == env.rollbackWrites.value
    ensures AfterWrites(s, RollBack(s, safe, safeHash, env).0, safe, safeHash, k, length)
  {
    var plan := Reorg.Plan(s, safe + 1, safe, safeHash);
    var granted := Granted(env.rollbackWrites, plan);
    length := |plan|;
    k := if granted < length then granted else length;
    assert plan[..length] == plan;
    RollbackPrefix(s, safe, safeHash, k);
  }

  lemma StepMoves(cfg: Config, s: Store, start: nat, env: Env)
    requires cfg.threshold == 0 && ChainInv(s, start)
    ensures Moved(s, Step(cfg, s, env).0, env)
    ensures ChainInv(Step(cfg, s, env).0, start)
  {
    var c := s.book.row.value.number;
    assert EnsureCursor(s, env).Some? ==> Step(cfg, s, env) == Follow(cfg, s, env);
    if env.cursorReadOk && env.fetchOk && c + 1 in env.remote {
      var h := env.remote[c + 1];
      SafePointIsPredecessor(s, start, env.readFails, h.parent, cfg.maxDepth);
      match Reorg.Compare(s.blocks, env.readFails, c + 1, h.parent, cfg.maxDepth) {
        case CheckFailed =>
        case Detected(_, safeHash, _) => RollBackMoves(s, start, safeHash, env);
        case NoReorg => PersistMoves(s, start, env);
      }
    }
  }

  /** A step that finds its parent in place and meets no failure commits. */
  lemma StepCommits(cfg: Config, s: Store, start: nat, env: Env)
    requires cfg.threshold == 0 && ChainInv(s, start)
    requires env.cursorReadOk && env.fetchOk && env.readFails == {} && env.relevant.Some? && env.commitOk
    requires var c := s.book.row.value.number;
             && c + 1 in env.remote
             && (c == start || s.blocks[c].hash == env.remote[c + 1].parent)
             && !HashTaken(s.blocks, c + 1, env.remote[c + 1].hash)
    ensures var c := s.book.row.value.number;
            Step(cfg, s, env).0 == Commit(s, c + 1, env.remote[c + 1], env.relevant.value)
  {
    var c := s.book.row.value.number;
    SafePointIsPredecessor(s, start, {}, env.remote[c + 1].parent, cfg.maxDepth);
    assert Step(cfg, s, env) == Follow(cfg, s, env);
  }

  /** A step that finds a mismatch performs the granted writes of the rollback
      of exactly one block. */
  lemma StepRollsBack(cfg: Config, s: Store, start: nat, env: Env)
    requires cfg.threshold == 0 && ChainInv(s, start)
    requires env.cursorReadOk && env.fetchOk && env.readFails == {}
    requires var c := s.book.row.value.number;
             start < c && c + 1 in env.remote && s.blocks[c].hash != env.remote[c + 1].parent
    requires env.rollbackWrites in {None, Some(1)}
    ensures var c, s' := s.book.row.value.number, Step(cfg, s, env).0;
            && s'.book.row.Some?
            && s'.book.row.value.number == (if env.rollbackWrites.None? then c - 1 else c)
            && s'.blocks == MarkBlock(s.blocks, c, Orphaned)
  {
    var c := s.book.row.value.number;
    var safeHash := if start < c - 1 then s.blocks[c - 1].hash else "";
    assert Step(cfg, s, env) == RollBack(s, c - 1, safeHash, env) by {
      SafePointIsPredecessor(s, start, {}, env.remote[c + 1].parent, cfg.maxDepth);
    }
    RollBackEffect(s, c - 1, safeHash, env);
  }

  lemma RollBackEffect(s: Store, safe: nat, safeHash: string, env: Env)
    requires s.book.row.Some? && env.rollbackWrites in {None, Some(1)}
    ensures var s' := RollBack(s, safe, safeHash, env).0;
            && s'.book.row.Some?
            && s'.book.row.value.number == (if env.rollbackWrites.None? then safe else s.book.row.value.number)
            && s'.blocks == MarkBlock(s.blocks, safe + 1, Orphaned)
  {
    var k, length := RollBackAfter(s, safe, safeHash, env);
  }

  /** Every stored block above `low` and below `number` is orphaned. */
  predicate OrphanedBetween(blocks: map<nat, Block>, low: nat, number: nat) {
    forall k :: k in blocks && low < k < number ==> blocks[k].status == Orphaned
  }

  /** On any store, also one no run reaches: the handler is called with the
      first block above the safe one, so a completed rollback orphans all
      blocks it abandons exactly when those further up already were. */
  lemma DeepRollbackExact(cfg: Config, s: Store, number: nat, parent: string, env: Env)
    requires s.book.row.Some? && Completes(env)
    requires Reorg.Compare(s.blocks, {}, number, parent, cfg.maxDepth).Detected?
    ensures var found := Reorg.Compare(s.blocks, {}, number, parent, cfg.maxDepth);
            var s' := RollBack(s, found.safe, found.safeHash, env).0;
            && s'.book.row.Some? && s'.book.row.value.number == found.safe < number
            && (OrphanedBetween(s'.blocks, found.safe, number) <==> OrphanedBetween(s.blocks, found.safe + 1, number))
  {
    var found := Reorg.Compare(s.blocks, {}, number, parent, cfg.maxDepth);
    var stop := Reorg.FindSafePointExact(s.blocks, {}, number - 1, cfg.maxDepth);
    RollBackEffect(s, found.safe, found.safeHash, env);
    var s' := RollBack(s, found.safe, found.safeHash, env).0;
    if OrphanedBetween(s'.blocks, found.safe, number) {
      forall k | k in s.blocks && found.safe + 1 < k < number ensures s.blocks[k].status == Orphaned {
        assert s'.blocks[k] == s.blocks[k];
      }
    }
  }

  // ---------------------------------------------------------------------
  // Whole runs
  // ---------------------------------------------------------------------

  /** Against any environment, over every run: the stored blocks form one
      hash-linked chain from the starting block to the cursor, and the cursor
      never falls below its start. */
  lemma {:induction false} RunKeepsChain(cfg: Config, start: nat, envs: seq<Env>)
    requires cfg.threshold == 0
    ensures ChainInv(Run(cfg, Created(start), envs), start)
  {
    if envs != [] {
      var last := |envs| - 1;
      RunKeepsChain(cfg, start, envs[..last]);
      StepMoves(cfg, Run(cfg, Created(start), envs[..last]), start, envs[last]);
    }
  }

  /** From an empty database: either no cursor could be created yet and the
      tables are empty, or the chain invariant holds for the chosen start. */
  lemma {:induction false} RunFromEmpty(cfg: Config, envs: seq<Env>)
    requires cfg.threshold == 0
    ensures var s := Run(cfg, EMPTY, envs);
            s == EMPTY || exists start :: ChainInv(s, start)
  {
    if envs != [] {
      var last := |envs| - 1;
      RunFromEmpty(cfg, envs[..last]);
      var s, env := Run(cfg, EMPTY, envs[..last]), envs[last];
      if s == EMPTY {
        if env.latest.Some? && Step(cfg, s, env).0 != EMPTY {
          var start := StartBlock(env.latest.value);
          StepMoves(cfg, Created(start), start, env);
          assert Step(cfg, s, env) == Step(cfg, Created(start), env);
        }
      } else {
        var start :| ChainInv(s, start);
        StepMoves(cfg, s, start, env);
      }
    }
  }

  /** Rollbacks of this environment run to completion. */
  predicate Completes(env: Env) {
    env.rollbackWrites.None?
  }

  lemma StepSettles(cfg: Config, s: Store, start: nat, env: Env)
    requires cfg.threshold == 0 && ChainInv(s, start) && Settled(s) && Completes(env)
    ensures Settled(Step(cfg, s, env).0)
  {
    StepMoves(cfg, s, start, env);
  }

  /** If every rollback completes, the statuses are exact in every reachable
      state: processed up to the cursor, orphaned above it. */
  lemma {:induction false} RunSettled(cfg: Config, start: nat, envs: seq<Env>)
    requires cfg.threshold == 0
    requires forall i :: 0 <= i < |envs| ==> Completes(envs[i])
    ensures Settled(Run(cfg, Created(start), envs))
  {
    if envs != [] {
      var last := |envs| - 1;
      RunSettled(cfg, start, envs[..last]);
      RunKeepsChain(cfg, start, envs[..last]);
      StepSettles(cfg, Run(cfg, Created(start), envs[..last]), start, envs[last]);
    }
  }

  /** Every transaction row belongs to a stored block; no key occurs twice; and
      the rows of abandoned blocks are invalid. */
  ghost predicate TxSettled(s: Store) {
    && s.book.row.Some? && UniqueKeys(s.txs)
    && forall i :: 0 <= i < |s.txs| ==>
         && s.txs[i].number in s.blocks
         && (s.book.row.value.number < s.txs[i].number ==> s.txs[i].status == Invalid)
  }

  lemma CommitTxs(s: Store, h: Header, txs: seq<Tx>)
    requires TxSettled(s)
    ensures TxSettled(Commit(s, s.book.row.value.number + 1, h, txs))
  {
    InsertTxsExact(s.txs, Stamped(txs, s.book.row.value.number + 1), "", 0);
  }

  lemma RollBackTxs(s: Store, safeHash: string, env: Env)
    requires TxSettled(s) && 0 < s.book.row.value.number && Completes(env)
    ensures TxSettled(RollBack(s, s.book.row.value.number - 1, safeHash, env).0)
  {
    var c := s.book.row.value.number;
    var plan := Reorg.Plan(s, c, c - 1, safeHash);
    Reorg.RollBackExact(s, c, c - 1, safeHash, |plan|);
    var s' := RollBack(s, c - 1, safeHash, env).0;
    forall i | 0 <= i < |s.txs| && s.txs[i].number == c ensures s'.txs[i].status == Invalid {
      assert Reorg.FoundIn(s.txs, s.txs[i].hash, c, c - 1);
    }
  }

  /** What a step amounts to on such a chain. */
  datatype Shape = Same | Back(safeHash: string) | Forward

  lemma StepShape(cfg: Config, s: Store, start: nat, env: Env) returns (shape: Shape)
    requires cfg.threshold == 0 && ChainInv(s, start)
    ensures var c, s' := s.book.row.value.number, Step(cfg, s, env).0;
            match shape
            case Same => s'.book == s.book && s'.blocks == s.blocks && s'.txs == s.txs
            case Back(safeHash) => start < c && s' == RollBack(s, c - 1, safeHash, env).0
            case Forward => env.relevant.Some? && c + 1 in env.remote && s' == Commit(s, c + 1, env.remote[c + 1], env.relevant.value)
  {
    shape := Same;
    var c := s.book.row.value.number;
    assert EnsureCursor(s, env).Some? ==> Step(cfg, s, env) == Follow(cfg, s, env);
    if env.cursorReadOk && env.fetchOk && c + 1 in env.remote {
      var h := env.remote[c + 1];
      SafePointIsPredecessor(s, start, env.readFails, h.parent, cfg.maxDepth);
      match Reorg.Compare(s.blocks, env.readFails, c + 1, h.parent, cfg.maxDepth) {
        case CheckFailed =>
        case Detected(_, safeHash, _) => shape := Back(safeHash);
        case NoReorg =>
          if env.relevant.Some? && env.commitOk && !HashTaken(s.blocks, c + 1, h.hash) {
            shape := Forward;
          }
      }
    }
  }

  lemma StepTxs(cfg: Config, s: Store, start: nat, env: Env)
    requires cfg.threshold == 0 && ChainInv(s, start) && TxSettled(s) && Completes(env)
    ensures TxSettled(Step(cfg, s, env).0)
  {
    var shape := StepShape(cfg, s, start, env);
    match shape
    case Same =>
    case Back(safeHash) => RollBackTxs(s, safeHash, env);
    case Forward => CommitTxs(s, env.remote[s.book.row.value.number + 1], env.relevant.value);
  }

  /** If every rollback completes, in every reachable state no transaction of
      an abandoned block counts as valid. */
  lemma {:induction false} RunTxSettled(cfg: Config, start: nat, envs: seq<Env>)
    requires cfg.threshold == 0
    requires forall i :: 0 <= i < |envs| ==> Completes(envs[i])
    ensures TxSettled(Run(cfg, Created(start), envs))
  {
    if envs != [] {
      var last := |envs| - 1;
      RunTxSettled(cfg, start, envs[..last]);
      RunKeepsChain(cfg, start, envs[..last]);
      StepTxs(cfg, Run(cfg, Created(start), envs[..last]), start, envs[last]);
    }
  }

  /** The first transaction of the batch with the hash. */
  predicate FirstWith(batch: seq<Tx>, j: int, hash: string) {
    0 <= j < |batch| && batch[j].hash == hash && forall k :: 0 <= k < j ==> batch[k].hash != hash
  }

  ghost predicate ComesAs(batch: seq<Tx>, hash: string, status: TxStatus) {
    exists j :: FirstWith(batch, j, hash) && batch[j].status == status
  }

  lemma {:induction false} StampedStatus(batch: seq<Tx>, number: nat, hash: string)
    ensures StatusOf(Stamped(batch, number), hash, number).None? <==> forall j :: 0 <= j < |batch| ==> batch[j].hash != hash
    ensures forall j :: FirstWith(batch, j, hash) ==> StatusOf(Stamped(batch, number), hash, number) == Some(batch[j].status)
    ensures StatusOf(Stamped(batch, number), hash, number).Some? ==> exists j :: FirstWith(batch, j, hash)
  {
    if batch != [] {
      var rest := batch[1..];
      StampedStatus(rest, number, hash);
      assert Stamped(batch, number)[1..] == Stamped(rest, number);
      if batch[0].hash == hash {
        assert FirstWith(batch, 0, hash);
      } else {
        forall j | FirstWith(batch, j, hash) ensures FirstWith(rest, j - 1, hash) && rest[j - 1] == batch[j] {
          assert forall k :: 0 <= k < j - 1 ==> rest[k] == batch[k + 1];
        }
        if StatusOf(Stamped(rest, number), hash, number).Some? {
          var j :| FirstWith(rest, j, hash);
          assert forall k :: 0 < k < j + 1 ==> batch[k] == rest[k - 1];
          assert FirstWith(batch, j + 1, hash);
        }
        assert forall j :: 0 <= j < |rest| ==> rest[j] == batch[j + 1];
      }
    }
  }

  lemma {:induction false} StatusAt(txs: seq<Tx>, hash: string, number: nat, i: nat)
    requires UniqueKeys(txs) && i < |txs| && txs[i].hash == hash && txs[i].number == number
    ensures StatusOf(txs, hash, number) == Some(txs[i].status)
  {
    if i > 0 {
      StatusAt(txs[1..], hash, number, i - 1);
    }
  }

  /** A step that moves the cursor one forward, on any store and with any
      threshold: it adds rows of that block only, exactly the hashes of the
      batch, and a hash that was not there has the status of its first
      occurrence in the batch. */
  lemma ForwardTransactions(cfg: Config, s: Store, env: Env, hash: string)
    requires s.book.row.Some? && UniqueKeys(s.txs)
    requires var s' := Step(cfg, s, env).0;
             s'.book.row.Some? && s'.book.row.value.number == s.book.row.value.number + 1
    ensures var next, s' := s.book.row.value.number + 1, Step(cfg, s, env).0;
            && env.relevant.Some?
            && var batch := env.relevant.value;
            && s.txs <= s'.txs
            && (forall i :: |s.txs| <= i < |s'.txs| ==> s'.txs[i].number == next)
            && ((exists i :: 0 <= i < |s'.txs| && s'.txs[i].hash == hash && s'.txs[i].number == next) <==>
                  || (exists i :: 0 <= i < |s.txs| && s.txs[i].hash == hash && s.txs[i].number == next)
                  || (exists j :: 0 <= j < |batch| && batch[j].hash == hash))
            && (!(exists i :: 0 <= i < |s.txs| && s.txs[i].hash == hash && s.txs[i].number == next) ==>
                  forall i, j ::
                    && 0 <= i < |s'.txs| && s'.txs[i].hash == hash && s'.txs[i].number == next
                    && 0 <= j < |batch| && batch[j].hash == hash && (forall k :: 0 <= k < j ==> batch[k].hash != hash)
                    ==> s'.txs[i].status == batch[j].status)
  {
    ForwardIsCommit(cfg, s, env);
    InsertedRows(s.txs, env.relevant.value, s.book.row.value.number + 1, hash);
  }

  predicate HasRow(txs: seq<Tx>, hash: string, number: nat) {
    exists i :: 0 <= i < |txs| && txs[i].hash == hash && txs[i].number == number
  }

  lemma InsertedRows(txs: seq<Tx>, batch: seq<Tx>, next: nat, hash: string)
    requires UniqueKeys(txs)
    ensures var after := InsertTxs(txs, Stamped(batch, next));
            && txs <= after
            && (forall i :: |txs| <= i < |after| ==> after[i].number == next)
            && (HasRow(after, hash, next) <==> HasRow(txs, hash, next) || exists j :: 0 <= j < |batch| && batch[j].hash == hash)
            && (!HasRow(txs, hash, next) ==>
                  forall i, j ::
                    && 0 <= i < |after| && after[i].hash == hash && after[i].number == next
                    && 0 <= j < |batch| && batch[j].hash == hash && (forall k :: 0 <= k < j ==> batch[k].hash != hash)
                    ==> after[i].status == batch[j].status)
  {
    var after := InsertTxs(txs, Stamped(batch, next));
    InsertTxsExact(txs, Stamped(batch, next), hash, next);
    InsertStatus(txs, Stamped(batch, next), hash, next);
    StampedStatus(batch, next, hash);
    assert HasKey(after, hash, next) <==> HasRow(after, hash, next);
    assert HasKey(txs, hash, next) <==> HasRow(txs, hash, next);
    forall i, j | && 0 <= i < |after| && after[i].hash == hash && after[i].number == next
                  && 0 <= j < |batch| && batch[j].hash == hash && (forall k :: 0 <= k < j ==> batch[k].hash != hash)
      ensures HasRow(txs, hash, next) || after[i].status == batch[j].status
    {
      StatusAt(after, hash, next, i);
      assert FirstWith(batch, j, hash);
    }
  }

  /** One forward is always a commit: a jump goes further, a rollback back. */
  lemma ForwardIsCommit(cfg: Config, s: Store, env: Env)
    requires s.book.row.Some?
    requires var s' := Step(cfg, s, env).0;
             s'.book.row.Some? && s'.book.row.value.number == s.book.row.value.number + 1
    ensures var next, s' := s.book.row.value.number + 1, Step(cfg, s, env).0;
            && env.relevant.Some? && next in env.remote
            && s'.txs == InsertTxs(s.txs, Stamped(env.relevant.value, next))
            && s'.blocks == s.blocks[next := Row(env.remote[next], Processed)]
  {
    var c := s.book.row.value.number;
    assert env.cursorReadOk;
    assert Step(cfg, s, env) == Proceed(cfg, s, env);
    if ShouldJump(cfg, c, env) {
      var (s1, jumped) := JumpToHead(s, c + 1, env.head.value, env);
      JumpIsFar(s, c + 1, env);
      assert !jumped && Step(cfg, s, env) == Follow(cfg, s1, env);
      FollowForward(cfg, s1, env);
    } else {
      FollowForward(cfg, s, env);
    }
  }

  lemma JumpIsFar(s: Store, from: nat, env: Env)
    requires s.book.row.Some? && env.head.Some?
    ensures var (s1, jumped) := JumpToHead(s, from, env.head.value, env);
            && s1.book.row.Some? && s1.blocks == s.blocks && s1.txs == s.txs
            && s1.book.row.value.number == if jumped then env.head.value else s.book.row.value.number
  {
  }

  lemma FollowForward(cfg: Config, s: Store, env: Env)
    requires s.book.row.Some?
    requires var s' := Follow(cfg, s, env).0;
             s'.book.row.Some? && s'.book.row.value.number == s.book.row.value.number + 1
    ensures var next := s.book.row.value.number + 1;
            && env.relevant.Some? && next in env.remote
            && Follow(cfg, s, env).0 == Commit(s, next, env.remote[next], env.relevant.value)
  {
    var c := s.book.row.value.number;
    if env.fetchOk && c + 1 in env.remote {
      match Reorg.Compare(s.blocks, env.readFails, c + 1, env.remote[c + 1].parent, cfg.maxDepth) {
        case CheckFailed =>
        case Detected(safe, safeHash, _) =>
          SafeNotAbove(s.blocks, env.readFails, c, 1, cfg.maxDepth);
          var k, length := RollBackAfter(s, safe, safeHash, env);
        case NoReorg =>
      }
    }
  }

  lemma {:induction false} SafeNotAbove(blocks: map<nat, Block>, fails: set<nat>, current: nat, depth: nat, maxDepth: int)
    ensures var r := Reorg.SafePointFrom(blocks, fails, current, depth, maxDepth);
            r.Safe? ==> r.block <= current
  {
    if current > 0 {
      SafeNotAbove(blocks, fails, current - 1, depth + 1, maxDepth);
    }
  }

  /** After a commit, block `number` holds a transaction with the status it came
      with if and only if the block had no row for it before, or one with that
      status. */
  lemma OwnStatusIff(s: Store, number: nat, h: Header, txs: seq<Tx>, hash: string, j: nat)
    requires s.book.row.Some? && FirstWith(txs, j, hash)
    ensures var s' := Commit(s, number, h, txs);
            && HasKey(s'.txs, hash, number)
            && (StatusOf(s'.txs, hash, number) == Some(txs[j].status)
                <==> !HasKey(s.txs, hash, number) || StatusOf(s.txs, hash, number) == Some(txs[j].status))
  {
    InsertStatus(s.txs, Stamped(txs, number), hash, number);
    StampedStatus(txs, number, hash);
  }

  /** In particular, from a state with settled transactions: a transaction that
      comes back in the replacement of its block stays invalid. */
  lemma ReincludedStaysInvalid(s: Store, h: Header, txs: seq<Tx>, hash: string)
    requires TxSettled(s) && HasKey(s.txs, hash, s.book.row.value.number + 1)
    ensures var number := s.book.row.value.number + 1;
            StatusOf(Commit(s, number, h, txs).txs, hash, number) == Some(Invalid)
  {
    var number := s.book.row.value.number + 1;
    InsertStatus(s.txs, Stamped(txs, number), hash, number);
    AboveIsInvalid(s.txs, s.book.row.value.number, hash, number);
  }

  lemma {:induction false} AboveIsInvalid(txs: seq<Tx>, cursor: nat, hash: string, number: nat)
    requires forall i :: 0 <= i < |txs| ==> (cursor < txs[i].number ==> txs[i].status == Invalid)
    requires cursor < number && HasKey(txs, hash, number)
    ensures StatusOf(txs, hash, number) == Some(Invalid)
  {
    if !(txs[0].hash == hash && txs[0].number == number) {
      assert txs == [txs[0]] + txs[1..];
      AboveIsInvalid(txs[1..], cursor, hash, number);
    }
  }

  // What makes a transaction invalid, over whole runs

  /** The step goes back, and the block it abandons has the transaction. */
  ghost predicate Abandons(s: Store, s': Store, hash: string) {
    && s.book.row.Some? && s'.book.row.Some? && s'.book.row.value.number < s.book.row.value.number
    && HasKey(s.txs, hash, s.book.row.value.number)
  }

  lemma {:induction false} StatusMarked(a: seq<Tx>, b: seq<Tx>, hash: string, number: nat, hit: bool)
    requires Reorg.SameRows(a, b)
    requires forall i :: 0 <= i < |a| && a[i].hash == hash ==> b[i].status == if hit then Invalid else a[i].status
    ensures HasKey(b, hash, number) <==> HasKey(a, hash, number)
    ensures StatusOf(b, hash, number) == if hit && HasKey(a, hash, number) then Some(Invalid) else StatusOf(a, hash, number)
  {
    if a != [] {
      StatusMarked(a[1..], b[1..], hash, number, hit);
      assert a == [a[0]] + a[1..] && b == [b[0]] + b[1..];
    }
  }

  lemma RollBackStatus(s: Store, safeHash: string, env: Env, hash: string, number: nat)
    requires s.book.row.Some? && 0 < s.book.row.value.number && Completes(env)
    ensures var c := s.book.row.value.number;
            var s' := RollBack(s, c - 1, safeHash, env).0;
            && s'.book.row.Some? && s'.book.row.value.number == c - 1
            && (HasKey(s'.txs, hash, number) <==> HasKey(s.txs, hash, number))
            && StatusOf(s'.txs, hash, number)
               == if HasKey(s.txs, hash, c) && HasKey(s.txs, hash, number) then Some(Invalid) else StatusOf(s.txs, hash, number)
  {
    var c := s.book.row.value.number;
    Reorg.RollBackExact(s, c, c - 1, safeHash, |Reorg.Plan(s, c, c - 1, safeHash)|);
    var s' := RollBack(s, c - 1, safeHash, env).0;
    assert HasKey(s.txs, hash, c) <==> Reorg.FoundIn(s.txs, hash, c, c - 1);
    StatusMarked(s.txs, s'.txs, hash, number, HasKey(s.txs, hash, c));
  }

  lemma CommitStatus(s: Store, h: Header, txs: seq<Tx>, hash: string, number: nat)
    requires s.book.row.Some?
    ensures var s' := Commit(s, s.book.row.value.number + 1, h, txs);
            && (HasKey(s.txs, hash, number) ==> StatusOf(s'.txs, hash, number) == StatusOf(s.txs, hash, number))
            && (!HasKey(s.txs, hash, number) && HasKey(s'.txs, hash, number) ==>
                  exists j :: FirstWith(txs, j, hash) && StatusOf(s'.txs, hash, number) == Some(txs[j].status))
  {
    var next := s.book.row.value.number + 1;
    InsertStatus(s.txs, Stamped(txs, next), hash, number);
    StampedStatus(txs, number, hash);
  }

  /** What one step does to the status of a row, and with which status a row
      arrives. */
  lemma StepStatus(cfg: Config, s: Store, start: nat, env: Env, hash: string, number: nat)
    requires cfg.threshold == 0 && ChainInv(s, start) && Completes(env)
    ensures var s' := Step(cfg, s, env).0;
            && (HasKey(s.txs, hash, number) ==>
                  StatusOf(s'.txs, hash, number) == if Abandons(s, s', hash) then Some(Invalid) else StatusOf(s.txs, hash, number))
            && (!HasKey(s.txs, hash, number) && HasKey(s'.txs, hash, number) ==>
                  env.relevant.Some? &&
                  exists j :: FirstWith(env.relevant.value, j, hash) && StatusOf(s'.txs, hash, number) == Some(env.relevant.value[j].status))
  {
    var shape := StepShape(cfg, s, start, env);
    match shape
    case Same =>
    case Back(safeHash) => RollBackStatus(s, safeHash, env, hash, number);
    case Forward => CommitStatus(s, env.remote[s.book.row.value.number + 1], env.relevant.value, hash, number);
  }

  /** The row arrived invalid, or some later step abandoned a block in which a
      row with the same hash was found. */
  ghost predicate MadeInvalid(cfg: Config, s: Store, envs: seq<Env>, hash: string, number: nat) {
    envs != [] &&
    var init, env := envs[..|envs| - 1], envs[|envs| - 1];
    var mid := Run(cfg, s, init);
    if HasKey(mid.txs, hash, number)
    then MadeInvalid(cfg, s, init, hash, number) || Abandons(mid, Run(cfg, s, envs), hash)
    else env.relevant.Some? && ComesAs(env.relevant.value, hash, Invalid)
  }

  /** If every rollback completes, in every reachable state, a row is invalid if
      and only if it arrived so or a later rollback found its hash, in
      whatever block, among the abandoned ones. */
  lemma {:induction false} InvalidIff(cfg: Config, start: nat, envs: seq<Env>, hash: string, number: nat)
    requires cfg.threshold == 0
    requires forall i :: 0 <= i < |envs| ==> Completes(envs[i])
    requires HasKey(Run(cfg, Created(start), envs).txs, hash, number)
    ensures StatusOf(Run(cfg, Created(start), envs).txs, hash, number) == Some(Invalid)
        <==> MadeInvalid(cfg, Created(start), envs, hash, number)
  {
    if envs != [] {
      var init, env := envs[..|envs| - 1], envs[|envs| - 1];
      var mid := Run(cfg, Created(start), init);
      RunKeepsChain(cfg, start, init);
      StepStatus(cfg, mid, start, env, hash, number);
      if HasKey(mid.txs, hash, number) {
        InvalidIff(cfg, start, init, hash, number);
      }
    }
  }

  /** What an interrupted rollback leaves behind, write by write.  The block
      statuses are wrong between the first write and the cursor move; the
      transactions are settled at every point; the state is scanning only
      after the last write, or before it was touched if it was scanning. */
  lemma InterruptedRollbackExact(s: Store, start: nat, safeHash: string, k: nat)
    requires ChainInv(s, start) && Settled(s) && TxSettled(s)
    requires start < s.book.row.value.number
    requires k <= |Reorg.Plan(s, s.book.row.value.number, s.book.row.value.number - 1, safeHash)|
    ensures var c := s.book.row.value.number;
            var plan := Reorg.Plan(s, c, c - 1, safeHash);
            var s' := Reorg.ApplyAll(s, plan[..k]);
            && (Settled(s') <==> k == 0 || |plan| - 1 <= k)
            && TxSettled(s')
            && (s'.book.row.value.state == Scanning <==>
                  k == |plan| || (k <= |Reorg.WritesFor(s.txs, c)| && s.book.row.value.state == Scanning))
  {
    var c := s.book.row.value.number;
    RollbackPrefix(s, c - 1, safeHash, k);
    var plan := Reorg.Plan(s, c, c - 1, safeHash);
    var s' := Reorg.ApplyAll(s, plan[..k]);
    InterruptedState(s, s', start, safeHash, k, |plan|);
  }

  lemma InterruptedState(s: Store, s': Store, start: nat, safeHash: string, k: nat, length: nat)
    requires ChainInv(s, start) && Settled(s) && TxSettled(s) && start < s.book.row.value.number && k <= length
    requires |Reorg.WritesFor(s.txs, s.book.row.value.number)| + 2 <= length
    requires AfterWrites(s, s', s.book.row.value.number - 1, safeHash, k, length)
    ensures Settled(s') <==> k == 0 || length - 1 <= k
    ensures TxSettled(s')
    ensures s'.book.row.value.state == Scanning <==>
              k == length || (k <= |Reorg.WritesFor(s.txs, s.book.row.value.number)| && s.book.row.value.state == Scanning)
  {
    InterruptedBlocks(s, s', k, length);
  }

  lemma InterruptedBlocks(s: Store, s': Store, k: nat, length: nat)
    requires Settled(s) && s'.book.row.Some? && s.book.row.value.number in s.blocks && 2 <= length
    requires var c := s.book.row.value.number;
             && 0 < c
             && s'.book.row.value.number == (if k < length - 1 then c else c - 1)
             && s'.blocks == if k == 0 then s.blocks else MarkBlock(s.blocks, c, Orphaned)
    ensures Settled(s') <==> k == 0 || length - 1 <= k
  {
    var c := s.book.row.value.number;
    assert c in s'.blocks;
  }

  /** A rollback cut off just before its last write leaves the cursor in state
      reorg.  The database path goes on from there, and stays in that state,
      where the manager's own Advance refuses to move. */
  lemma ReorgStateIsIgnored(cfg: Config, s: Store, start: nat, env: Env, io: Io)
    requires cfg.threshold == 0 && ChainInv(s, start) && s.book.row.value.state == State.Reorg
    requires env.cursorReadOk && env.fetchOk && env.readFails == {} && env.relevant.Some? && env.commitOk
    requires var c := s.book.row.value.number;
             && c + 1 in env.remote
             && (c == start || s.blocks[c].hash == env.remote[c + 1].parent)
             && !HashTaken(s.blocks, c + 1, env.remote[c + 1].hash)
    ensures var c, s' := s.book.row.value.number, Step(cfg, s, env).0;
            && s'.book.row == Some(Cursor(c + 1, env.remote[c + 1].hash, State.Reorg))
            && Execute(s.book, Advance(c + 1, env.remote[c + 1].hash), io).0 == s.book
  {
    StepCommits(cfg, s, start, env);
  }

  /** A rollback interrupted after its first write is not repaired if the
      remote returns to the old branch: the cursor moves on and the canonical
      block below it stays orphaned. */
  lemma InterruptionSurvivesReturn(cfg: Config, s: Store, start: nat, stray: Env, back: Env)
    requires cfg.threshold == 0 && ChainInv(s, start) && Settled(s)
    requires start < s.book.row.value.number
    requires var next := s.book.row.value.number + 1;
             && (forall env :: env in {stray, back} ==>
                   env.cursorReadOk && env.fetchOk && env.readFails == {} && next in env.remote)
             && stray.rollbackWrites == Some(1)
             && stray.remote[next].parent != s.blocks[next - 1].hash
             && back.remote[next].parent == s.blocks[next - 1].hash
             && back.relevant.Some? && back.commitOk
             && !HashTaken(s.blocks, next, back.remote[next].hash)
    ensures var c := s.book.row.value.number;
            var s' := Run(cfg, s, [stray, back]);
            && s'.book.row.Some? && s'.book.row.value.number == c + 1
            && c in s'.blocks && s'.blocks[c].status == Orphaned
            && !Settled(s')
  {
    var c := s.book.row.value.number;
    var s1 := Step(cfg, s, stray).0;
    StepMoves(cfg, s, start, stray);
    StepRollsBack(cfg, s, start, stray);
    assert !HashTaken(s1.blocks, c + 1, back.remote[c + 1].hash);
    StepCommits(cfg, s1, start, back);
    RunTwo(cfg, s, stray, back);
  }

  lemma RunTwo(cfg: Config, s: Store, first: Env, second: Env)
    ensures Run(cfg, s, [first, second]) == Step(cfg, Step(cfg, s, first).0, second).0
  {
    assert [first][..0] == [];
    assert Run(cfg, s, [first]) == Step(cfg, s, first).0;
    assert [first, second][..1] == [first];
  }
}
