/** Reorganisation handling: the detector that looks for the last block the
    stored chain agrees on, and the handler that rolls the tables back to it. */
module Reorg {
  import opened Options
  import opened Cursors
  import opened Stores

  // ---------------------------------------------------------------------
  // Detector
  // ---------------------------------------------------------------------

  datatype SafePoint = Safe(block: nat, hash: string, depth: nat) | Unknown

  datatype Check = NoReorg | Detected(safe: nat, safeHash: string, depth: nat) | CheckFailed

  function EffectiveDepth(maxDepth: int): int {
    if maxDepth == 0 then 100 else maxDepth
  }

  /** Blocks `n - 1` and `n` are stored and do not fit together. */
  predicate Broken(blocks: map<nat, Block>, n: nat) {
    0 < n && n in blocks && n - 1 in blocks && blocks[n].parent != blocks[n - 1].hash
  }

  /** The backward walk, on values.  `fails` are the block numbers that cannot
      be read. */
  function SafePointFrom(blocks: map<nat, Block>, fails: set<nat>, current: nat, depth: nat, maxDepth: int): SafePoint {
    if current == 0 then Safe(0, "", depth)
    else if current in fails then Unknown
    else if current !in blocks then Safe(current, "", depth)
    else if current - 1 in fails then Unknown
    else if current - 1 !in blocks then Safe(current - 1, "", depth)
    else if blocks[current].parent == blocks[current - 1].hash then
      Safe(current - 1, blocks[current - 1].hash, depth)
    else if depth + 1 > EffectiveDepth(maxDepth) then Unknown
    else SafePointFrom(blocks, fails, current - 1, depth + 1, maxDepth)
  }

  function Compare(blocks: map<nat, Block>, fails: set<nat>, number: nat, parent: string, maxDepth: int): Check {
    if number == 0 then NoReorg
    else if number - 1 in fails then CheckFailed
    else if number - 1 !in blocks then NoReorg
    else if blocks[number - 1].hash == parent then NoReorg
    else
      match SafePointFrom(blocks, fails, number - 1, 1, maxDepth)
      case Unknown => CheckFailed
      case Safe(n, h, d) => Detected(n, h, d)
  }

  method FindSafePoint(db: Database, fails: set<nat>, from: nat, maxDepth: int) returns (r: SafePoint)
    ensures r == SafePointFrom(db.blocks, fails, from, 1, maxDepth)
  {
    var current, depth := from, 1;
    while current > 0
      invariant SafePointFrom(db.blocks, fails, current, depth, maxDepth)
                == SafePointFrom(db.blocks, fails, from, 1, maxDepth)
    {
      if current in fails {
        return Unknown;
      }
      if current !in db.blocks {
        return Safe(current, "", depth);
      }
      if current - 1 in fails {
        return Unknown;
      }
      if current - 1 !in db.blocks {
        return Safe(current - 1, "", depth);
      }
      var block, parent := db.blocks[current], db.blocks[current - 1];
      if block.parent == parent.hash {
        return Safe(current - 1, parent.hash, depth);
      }
      current, depth := current - 1, depth + 1;
      if depth > EffectiveDepth(maxDepth) {
        return Unknown;
      }
    }
    return Safe(0, "", depth);
  }

  method CheckParentHash(db: Database, fails: set<nat>, number: nat, parent: string, maxDepth: int) returns (r: Check)
    ensures r == Compare(db.blocks, fails, number, parent, maxDepth)
  {
    if number == 0 {
      return NoReorg;
    }
    if number - 1 in fails {
      return CheckFailed;
    }
    if number - 1 !in db.blocks || db.blocks[number - 1].hash == parent {
      return NoReorg;
    }
    var point := FindSafePoint(db, fails, number - 1, maxDepth);
    match point {
      case Unknown => return CheckFailed;
      case Safe(n, h, d) => return Detected(n, h, d);
    }
  }

  /** Where the chain of broken links below `from` stops. */
  predicate IsStop(blocks: map<nat, Block>, from: nat, stop: nat) {
    && stop <= from
    && (stop == 0 || !Broken(blocks, stop))
    && forall k :: stop < k <= from ==> Broken(blocks, k)
  }

  /** What a safe point means, without reference to the walk: every stored link
      above it is broken, and below it lies the highest block that its stored
      successor names as parent, or the end of the stored data, or zero. */
  predicate IsSafePoint(blocks: map<nat, Block>, from: nat, n: nat, h: string) {
    && n <= from
    && (forall k :: n + 1 < k <= from ==> Broken(blocks, k))
    && (|| (n in blocks && n + 1 in blocks && n < from && blocks[n + 1].parent == blocks[n].hash == h)
        || (n !in blocks && h == "" && (n < from ==> n + 1 in blocks))
        || (n == 0 && h == "" && (0 < from ==> Broken(blocks, 1))))
  }

  /** The blocks the walk asks for on its way down to `stop`. */
  predicate Reads(blocks: map<nat, Block>, from: nat, stop: nat, k: nat) {
    0 < from && (stop <= k <= from || (k + 1 == stop && stop in blocks))
  }

  lemma {:induction false} WalkExact(blocks: map<nat, Block>, fails: set<nat>, from: nat, current: nat, maxDepth: int) returns (stop: nat)
    requires current <= from
    requires forall k :: current < k <= from ==> Broken(blocks, k)
    requires current < from ==> forall k :: current <= k <= from ==> k !in fails
    requires current == from || from - current + 1 <= EffectiveDepth(maxDepth)
    ensures IsStop(blocks, from, stop)
    ensures match SafePointFrom(blocks, fails, current, from - current + 1, maxDepth)
            case Unknown =>
              || (stop < from && from - stop + 1 > EffectiveDepth(maxDepth))
              || exists k :: k in fails && Reads(blocks, from, stop, k)
            case Safe(n, h, d) =>
              && d == from - stop + 1
              && (stop == from || d <= EffectiveDepth(maxDepth))
              && IsSafePoint(blocks, from, n, h)
              && forall k :: k in fails ==> !Reads(blocks, from, stop, k)
    decreases current
  {
    stop := LowestBroken(blocks, from, current);
    assert current < from ==> Broken(blocks, current + 1);
    if current == 0 {
    } else if current in fails {
      assert Reads(blocks, from, stop, current);
    } else if current in blocks && current - 1 in fails {
      assert Reads(blocks, from, stop, current - 1);
    } else if Broken(blocks, current) && from - current + 2 <= EffectiveDepth(maxDepth) {
      stop := WalkExact(blocks, fails, from, current - 1, maxDepth);
    }
  }

  lemma {:induction false} LowestBroken(blocks: map<nat, Block>, from: nat, current: nat) returns (stop: nat)
    requires current <= from
    requires forall k :: current < k <= from ==> Broken(blocks, k)
    ensures IsStop(blocks, from, stop) && stop <= current
    ensures current != 0 && Broken(blocks, current) ==> stop < current
  {
    stop := current;
    if current != 0 && Broken(blocks, current) {
      stop := LowestBroken(blocks, from, current - 1);
    }
  }

  /** On every store and with any read failures: the walk finds the safe point,
      unless the run of broken links below the starting block is longer than
      the depth limit (100 if none is given) or a block it asks for cannot be
      read. */
  lemma FindSafePointExact(blocks: map<nat, Block>, fails: set<nat>, from: nat, maxDepth: int) returns (stop: nat)
    ensures IsStop(blocks, from, stop)
    ensures var r := SafePointFrom(blocks, fails, from, 1, maxDepth);
            var limit := if maxDepth == 0 then 100 else maxDepth;
            && (r == Unknown <==>
                  || (stop < from && from - stop + 1 > limit)
                  || exists k :: k in fails && Reads(blocks, from, stop, k))
            && (r.Safe? ==> IsSafePoint(blocks, from, r.block, r.hash) && r.depth == from - stop + 1)
  {
    stop := WalkExact(blocks, fails, from, from, maxDepth);
  }

  /** On every store: no reorganisation exactly when there is nothing below, or
      what is below can be read and is missing or fits; otherwise the check
      fails, or finds the safe point of the block below. */
  lemma CompareExact(blocks: map<nat, Block>, fails: set<nat>, number: nat, parent: string, maxDepth: int) returns (stop: nat)
    ensures var r := Compare(blocks, fails, number, parent, maxDepth);
            var limit := if maxDepth == 0 then 100 else maxDepth;
            && (r == NoReorg <==>
                  number == 0 || (number - 1 !in fails && (number - 1 !in blocks || blocks[number - 1].hash == parent)))
            && (r.Detected? ==> number > 0 && IsSafePoint(blocks, number - 1, r.safe, r.safeHash))
            && (r == CheckFailed ==>
                  && number > 0 && IsStop(blocks, number - 1, stop)
                  && (|| number - 1 in fails
                      || (stop < number - 1 && number - stop > limit)
                      || exists k :: k in fails && Reads(blocks, number - 1, stop, k)))
  {
    stop := 0;
    if number > 0 {
      stop := FindSafePointExact(blocks, fails, number - 1, maxDepth);
    }
  }

  /** At most one block can be the safe point, so `IsSafePoint` determines the
      result of the walk. */
  lemma SafePointUnique(blocks: map<nat, Block>, from: nat, n1: nat, h1: string, n2: nat, h2: string)
    requires from in blocks
    requires IsSafePoint(blocks, from, n1, h1) && IsSafePoint(blocks, from, n2, h2)
    ensures n1 == n2 && h1 == h2
  {
    if n1 < n2 {
      SafePointNotBelow(blocks, from, n1, h1, n2, h2);
    } else if n2 < n1 {
      SafePointNotBelow(blocks, from, n2, h2, n1, h1);
    }
  }

  lemma SafePointNotBelow(blocks: map<nat, Block>, from: nat, low: nat, h1: string, high: nat, h2: string)
    requires from in blocks
    requires IsSafePoint(blocks, from, low, h1) && IsSafePoint(blocks, from, high, h2)
    ensures !(low < high)
  {
    assert 0 < high ==> high < from && !Broken(blocks, high + 1);
  }

  // ---------------------------------------------------------------------
  // Handler
  // ---------------------------------------------------------------------

  /** One repository write of a rollback. */
  datatype Write =
    | Orphan(number: nat)
    | Invalidate(hash: string)
    | Enter(state: State)
    | Place(number: nat, hash: string)

  function Apply(s: Store, w: Write): Store {
    match w
    case Orphan(number) => s.(blocks := MarkBlock(s.blocks, number, Orphaned))
    case Invalidate(hash) => s.(txs := MarkTx(s.txs, hash, Invalid))
    case Enter(state) =>
      if s.book.row.Some? then s.(book := EnterState(s.book, state)) else s
    case Place(number, hash) =>
      if s.book.row.Some?
      then s.(book := s.book.(row := Some(s.book.row.value.(number := number, hash := hash))))
      else s
  }

  function ApplyAll(s: Store, ws: seq<Write>): Store {
    if ws == [] then s else Apply(ApplyAll(s, ws[..|ws| - 1]), ws[|ws| - 1])
  }

  function Invalidations(hashes: seq<string>): (ws: seq<Write>)
    ensures |ws| == |hashes|
  {
    seq(|hashes|, i requires 0 <= i < |hashes| => Invalidate(hashes[i]))
  }

  function BlockWrites(txs: seq<Tx>, from: nat, safe: nat): seq<Write>
    decreases from
  {
    if from <= safe then []
    else WritesFor(txs, from) + BlockWrites(txs, from - 1, safe)
  }

  function WritesFor(txs: seq<Tx>, number: nat): seq<Write> {
    [Orphan(number)] + Invalidations(HashesAt(txs, number))
  }

  function CursorWrites(state: State, safe: nat, safeHash: string): seq<Write> {
    (if state != State.Reorg then [Enter(State.Reorg)] else []) + [Place(safe, safeHash), Enter(Scanning)]
  }

  /** The writes of a rollback, in order, as they follow from the tables it
      starts on. */
  function Plan(s: Store, from: nat, safe: nat, safeHash: string): seq<Write> {
    BlockWrites(s.txs, from, safe) +
    if s.book.row.Some? then CursorWrites(s.book.row.value.state, safe, safeHash) else []
  }

  /** Effect of a rollback of which only the first `budget` writes succeed. */
  function RollBack(s: Store, from: nat, safe: nat, safeHash: string, budget: nat): (Store, bool) {
    var plan := Plan(s, from, safe, safeHash);
    if budget < |plan| then (ApplyAll(s, plan[..budget]), false)
    else (ApplyAll(s, plan), s.book.row.Some?)
  }

  lemma ApplySnoc(s: Store, ws: seq<Write>, w: Write)
    ensures ApplyAll(s, ws + [w]) == Apply(ApplyAll(s, ws), w)
  {
    assert (ws + [w])[..|ws|] == ws;
  }

  /** Every row with one of the hashes becomes invalid. */
  function InvalidateAll(txs: seq<Tx>, hashes: seq<string>): (r: seq<Tx>)
    ensures |r| == |txs|
    ensures forall i :: 0 <= i < |txs| ==>
              r[i] == if txs[i].hash in hashes then txs[i].(status := Invalid) else txs[i]
  {
    seq(|txs|, i requires 0 <= i < |txs| =>
          if txs[i].hash in hashes then txs[i].(status := Invalid) else txs[i])
  }

  lemma {:induction false} ApplyInvalidations(s: Store, done: seq<Write>, hashes: seq<string>)
    ensures var mid := ApplyAll(s, done);
            ApplyAll(s, done + Invalidations(hashes)) == mid.(txs := InvalidateAll(mid.txs, hashes))
  {
    var mid := ApplyAll(s, done);
    if hashes == [] {
      assert done + Invalidations(hashes) == done;
      assert InvalidateAll(mid.txs, hashes) == mid.txs;
    } else {
      var init, last := hashes[..|hashes| - 1], hashes[|hashes| - 1];
      assert hashes == init + [last];
      ApplyInvalidations(s, done, init);
      ApplySnoc(s, done + Invalidations(init), Invalidate(last));
      assert done + Invalidations(init) + [Invalidate(last)] == done + Invalidations(hashes);
      assert MarkTx(InvalidateAll(mid.txs, init), last, Invalid) == InvalidateAll(mid.txs, hashes);
    }
  }

  /** The two tables hold the same rows up to status. */
  predicate SameRows(a: seq<Tx>, b: seq<Tx>) {
    |a| == |b| && forall i :: 0 <= i < |a| ==> a[i].hash == b[i].hash && a[i].number == b[i].number
  }

  lemma {:induction false} SameRowsSameHashes(a: seq<Tx>, b: seq<Tx>, number: nat)
    requires SameRows(a, b)
    ensures HashesAt(a, number) == HashesAt(b, number)
  {
    if a != [] {
      SameRowsSameHashes(a[1..], b[1..], number);
    }
  }

  /** The tables after the first `count` writes for one block. */
  function OrphanedUpTo(s: Store, number: nat, count: nat): Store
    requires count <= |WritesFor(s.txs, number)|
  {
    if count == 0 then s
    else s.(blocks := MarkBlock(s.blocks, number, Orphaned),
            txs := InvalidateAll(s.txs, HashesAt(s.txs, number)[..count - 1]))
  }

  lemma ApplyWritesFor(s: Store, done: seq<Write>, number: nat, count: nat)
    requires SameRows(s.txs, ApplyAll(s, done).txs)
    requires count <= |WritesFor(s.txs, number)|
    ensures HashesAt(ApplyAll(s, done).txs, number) == HashesAt(s.txs, number)
    ensures ApplyAll(s, done + WritesFor(s.txs, number)[..count]) == OrphanedUpTo(ApplyAll(s, done), number, count)
  {
    var mid := ApplyAll(s, done);
    SameRowsSameHashes(s.txs, mid.txs, number);
    if count == 0 {
      assert done + WritesFor(s.txs, number)[..count] == done;
    } else {
      var hashes := HashesAt(s.txs, number)[..count - 1];
      ApplyOrphan(s, done, number, hashes);
      assert [Orphan(number)] + Invalidations(hashes) == WritesFor(s.txs, number)[..count];
    }
  }

  lemma ApplyOrphan(s: Store, done: seq<Write>, number: nat, hashes: seq<string>)
    ensures var mid := ApplyAll(s, done);
            ApplyAll(s, done + ([Orphan(number)] + Invalidations(hashes)))
            == mid.(blocks := MarkBlock(mid.blocks, number, Orphaned), txs := InvalidateAll(mid.txs, hashes))
  {
    ApplySnoc(s, done, Orphan(number));
    ApplyInvalidations(s, done + [Orphan(number)], hashes);
    assert done + [Orphan(number)] + Invalidations(hashes) == done + ([Orphan(number)] + Invalidations(hashes));
  }

  lemma NextWrites(txs: seq<Tx>, ws: seq<Write>, used: nat, number: nat, safe: nat, count: nat)
    requires used <= |ws| && safe < number
    requires ws[used..] == BlockWrites(txs, number, safe)
    requires count <= |WritesFor(txs, number)|
    ensures used + count <= |ws|
    ensures ws[..used + count] == ws[..used] + WritesFor(txs, number)[..count]
    ensures count == |WritesFor(txs, number)| ==> ws[used + count..] == BlockWrites(txs, number - 1, safe)
    ensures count < |WritesFor(txs, number)| ==> used + count < |ws|
  {
    assert ws == ws[..used] + ws[used..];
  }

  /** `used` of the writes `ws` are done, and those for the blocks from
      `number` down remain. */
  ghost predicate Reached(s0: Store, s: Store, ws: seq<Write>, used: nat, number: nat, safe: nat) {
    && used <= |ws|
    && ws[used..] == BlockWrites(s0.txs, number, safe)
    && s == ApplyAll(s0, ws[..used])
    && SameRows(s0.txs, s.txs)
  }

  lemma ReachedNext(s0: Store, s: Store, ws: seq<Write>, used: nat, number: nat, safe: nat, count: nat)
    requires safe < number
    requires Reached(s0, s, ws, used, number, safe)
    requires count <= |WritesFor(s.txs, number)|
    ensures WritesFor(s.txs, number) == WritesFor(s0.txs, number)
    ensures used + count <= |ws|
    ensures OrphanedUpTo(s, number, count) == ApplyAll(s0, ws[..used + count])
    ensures if count == |WritesFor(s.txs, number)|
            then Reached(s0, OrphanedUpTo(s, number, count), ws, used + count, number - 1, safe)
            else used + count < |ws|
  {
    SameRowsSameHashes(s0.txs, s.txs, number);
    NextWrites(s0.txs, ws, used, number, safe, count);
    ApplyWritesFor(s0, ws[..used], number, count);
  }

  /** Marks one block orphaned and invalidates the transactions found in it,
      as far as `left` writes go. */
  method OrphanBlock(db: Database, mgr: Manager, number: nat, left: nat) returns (count: nat, whole: bool)
    modifies db`blocks, db`txs
    ensures count <= |WritesFor(old(db.txs), number)| && count <= left
    ensures Snapshot(db, mgr) == OrphanedUpTo(old(Snapshot(db, mgr)), number, count)
    ensures whole <==> count == |WritesFor(old(db.txs), number)|
    ensures !whole ==> count == left
    ensures SameRows(old(db.txs), db.txs)
  {
    if left == 0 {
      return 0, false;
    }
    db.blocks := MarkBlock(db.blocks, number, Orphaned);
    var hashes := HashesAt(db.txs, number);
    var reverted := RevertTransactions(db, hashes, left - 1);
    return 1 + reverted, reverted == |hashes|;
  }

  /** The next block of a rollback in progress. */
  method OrphanNext(db: Database, mgr: Manager, number: nat, safe: nat, left: nat, ghost used: nat, ghost s0: Store, ghost ws: seq<Write>)
    returns (count: nat, whole: bool)
    requires safe < number && Reached(s0, Snapshot(db, mgr), ws, used, number, safe)
    modifies db`blocks, db`txs
    ensures count <= left && used + count <= |ws|
    ensures whole ==> 0 < count && Reached(s0, Snapshot(db, mgr), ws, used + count, number - 1, safe)
    ensures !whole ==> count == left && used + count < |ws| && Snapshot(db, mgr) == ApplyAll(s0, ws[..used + count])
  {
    ghost var before := Snapshot(db, mgr);
    count, whole := OrphanBlock(db, mgr, number, left);
    ReachedNext(s0, before, ws, used, number, safe, count);
  }

  lemma ReachedEnd(s0: Store, s: Store, ws: seq<Write>, used: nat, number: nat, safe: nat)
    requires number <= safe && Reached(s0, s, ws, used, number, safe)
    ensures used == |ws|
  {
  }

  /** Step one of a rollback: the blocks from `from` down to just above `safe`. */
  method OrphanBlocks(db: Database, mgr: Manager, from: nat, safe: nat, budget: nat, ghost s0: Store, ghost ws: seq<Write>)
    returns (used: nat, orphaned: nat, whole: bool)
    requires Reached(s0, Snapshot(db, mgr), ws, 0, from, safe)
    modifies db`blocks, db`txs
    ensures orphaned <= used <= |ws| && used <= budget
    ensures Snapshot(db, mgr) == ApplyAll(s0, ws[..used])
    ensures whole <==> used == |ws|
    ensures !whole ==> used == budget
    ensures whole ==> orphaned == if from <= safe then 0 else from - safe
  {
    used, orphaned := 0, 0;
    var number: nat := from;
    while number > safe
      invariant number <= from && (safe < from ==> safe <= number)
      invariant orphaned == (if from <= safe then 0 else from - number) <= used
      invariant used <= budget
      invariant Reached(s0, Snapshot(db, mgr), ws, used, number, safe)
    {
      var count, all := OrphanNext(db, mgr, number, safe, budget - used, used, s0, ws);
      used := used + count;
      if !all {
        return used, orphaned, false;
      }
      number, orphaned := number - 1, orphaned + 1;
    }
    ReachedEnd(s0, Snapshot(db, mgr), ws, used, number, safe);
    return used, orphaned, true;
  }

  /** Marks the blocks from `from` down to just above `safe` as orphaned,
      invalidates the transactions found in them, and moves the cursor back.
      `budget` is the number of writes that succeed before one fails, so a
      rollback may stop at any point. */
  method Rollback(db: Database, mgr: Manager, from: nat, safe: nat, safeHash: string, budget: nat)
    returns (ok: bool, orphaned: nat, reverted: nat)
    modifies db, mgr
    ensures (Snapshot(db, mgr), ok) == RollBack(old(Snapshot(db, mgr)), from, safe, safeHash, budget)
    ensures ok ==> orphaned == (if from <= safe then 0 else from - safe)
    ensures ok ==> orphaned + reverted == |BlockWrites(old(db.txs), from, safe)|
  {
    ghost var s0 := Snapshot(db, mgr);
    ghost var ws := BlockWrites(s0.txs, from, safe);
    var used, marked, whole := OrphanBlocks(db, mgr, from, safe, budget, s0, ws);
    orphaned, reverted := marked, used - marked;
    if !whole {
      RollBackCut(s0, from, safe, safeHash, budget);
      return false, orphaned, reverted;
    }
    assert ws[..used] == ws;
    BlocksKeepBook(s0, from, safe);
    RollBackWrites(s0, from, safe, safeHash, budget);
    CursorAfterBlocks(s0, ApplyAll(s0, ws), safe, safeHash, budget - used);
    ok := RollbackCursor(mgr, safe, safeHash, budget - used);
  }

  lemma RollBackCut(s: Store, from: nat, safe: nat, safeHash: string, budget: nat)
    requires budget < |BlockWrites(s.txs, from, safe)|
    ensures RollBack(s, from, safe, safeHash, budget)
            == (ApplyAll(s, BlockWrites(s.txs, from, safe)[..budget]), false)
  {
    assert Plan(s, from, safe, safeHash)[..budget] == BlockWrites(s.txs, from, safe)[..budget];
  }

  /** The cursor with the writes that are left after the blocks. */
  lemma CursorAfterBlocks(s: Store, s1: Store, safe: nat, safeHash: string, left: nat)
    requires s1.book == s.book
    ensures var cs := if s.book.row.Some? then CursorWrites(s.book.row.value.state, safe, safeHash) else [];
            ApplyAll(s1, if left < |cs| then cs[..left] else cs)
            == if s.book.row.None? then s1 else s1.(book := CursorAfter(s.book, safe, safeHash, left))
  {
    if s.book.row.Some? {
      CursorPart(s1, safe, safeHash, left);
    }
  }

  lemma RollBackWrites(s: Store, from: nat, safe: nat, safeHash: string, budget: nat)
    requires budget >= |BlockWrites(s.txs, from, safe)|
    ensures var ws := BlockWrites(s.txs, from, safe);
            var cs := if s.book.row.Some? then CursorWrites(s.book.row.value.state, safe, safeHash) else [];
            var left := budget - |ws|;
            RollBack(s, from, safe, safeHash, budget)
            == (ApplyAll(ApplyAll(s, ws), if left < |cs| then cs[..left] else cs), s.book.row.Some? && left >= |cs|)
  {
    var ws := BlockWrites(s.txs, from, safe);
    var cs := if s.book.row.Some? then CursorWrites(s.book.row.value.state, safe, safeHash) else [];
    assert Plan(s, from, safe, safeHash) == ws + cs;
    RunPlan(s, ws, cs, budget);
  }

  lemma BlocksKeepBook(s: Store, from: nat, safe: nat)
    ensures ApplyAll(s, BlockWrites(s.txs, from, safe)).book == s.book
  {
    BlocksRollBack(s, from, safe);
  }

  /** As much of `ws + cs` as the budget allows, which covers `ws`. */
  lemma RunPlan(s: Store, ws: seq<Write>, cs: seq<Write>, budget: nat)
    requires |ws| <= budget
    ensures var left := budget - |ws|;
            ApplyAll(s, if budget < |ws + cs| then (ws + cs)[..budget] else ws + cs)
            == ApplyAll(ApplyAll(s, ws), if left < |cs| then cs[..left] else cs)
  {
    var left := budget - |ws|;
    var part := if left < |cs| then cs[..left] else cs;
    assert budget < |ws + cs| ==> (ws + cs)[..budget] == ws + part;
    ApplyConcat(s, ws, part);
  }

  /** The book after `left` further writes, or all of them, for the cursor. */
  function CursorAfter(b: Book, safe: nat, safeHash: string, left: nat): Book
    requires b.row.Some?
  {
    var entered := if b.row.value.state == State.Reorg then b else EnterState(b, State.Reorg);
    var first := if b.row.value.state == State.Reorg then 0 else 1;
    if left < first then b
    else if left < first + 1 then entered
    else
      var placed := entered.(row := Some(entered.row.value.(number := safe, hash := safeHash)));
      if left < first + 2 then placed else EnterState(placed, Scanning)
  }

  lemma CursorPart(s: Store, safe: nat, safeHash: string, left: nat)
    requires s.book.row.Some?
    ensures var cs := CursorWrites(s.book.row.value.state, safe, safeHash);
            ApplyAll(s, if left < |cs| then cs[..left] else cs) == s.(book := CursorAfter(s.book, safe, safeHash, left))
  {
    var cs := CursorWrites(s.book.row.value.state, safe, safeHash);
    var k := if left < |cs| then left else |cs|;
    assert cs[..|cs|] == cs;
    CursorSteps(s, cs, k);
  }

  /** At most three writes, one by one. */
  lemma CursorSteps(s: Store, cs: seq<Write>, k: nat)
    requires k <= |cs| <= 3
    ensures ApplyAll(s, cs[..k]) ==
            if k == 0 then s
            else if k == 1 then Apply(s, cs[0])
            else if k == 2 then Apply(Apply(s, cs[0]), cs[1])
            else Apply(Apply(Apply(s, cs[0]), cs[1]), cs[2])
  {
    if k > 0 {
      CursorSteps(s, cs, k - 1);
      ApplySnoc(s, cs[..k - 1], cs[k - 1]);
      assert cs[..k] == cs[..k - 1] + [cs[k - 1]];
    }
  }

  /** Marks transactions as invalid, one write each, while writes succeed. */
  method RevertTransactions(db: Database, hashes: seq<string>, left: nat) returns (count: nat)
    modifies db`txs
    ensures count == if left < |hashes| then left else |hashes|
    ensures db.txs == InvalidateAll(old(db.txs), hashes[..count])
  {
    count := 0;
    while count < |hashes| && count < left
      invariant count <= |hashes| && count <= left
      invariant db.txs == InvalidateAll(old(db.txs), hashes[..count])
    {
      db.txs := MarkTx(db.txs, hashes[count], Invalid);
      assert hashes[..count + 1] == hashes[..count] + [hashes[count]];
      count := count + 1;
    }
  }

  /** The last part of a rollback: the cursor goes back, then to scanning. */
  method RollbackCursor(mgr: Manager, safe: nat, safeHash: string, left: nat) returns (ok: bool)
    modifies mgr
    ensures old(mgr.row).None? ==> mgr.View() == old(mgr.View()) && !ok
    ensures old(mgr.row).Some? ==> mgr.View() == CursorAfter(old(mgr.View()), safe, safeHash, left)
    ensures old(mgr.row).Some? ==> ok == (left >= |CursorWrites(old(mgr.row).value.state, safe, safeHash)|)
  {
    var entered := if mgr.row.Some? && mgr.row.value.state != State.Reorg then 1 else 0;
    var r := mgr.Rollback(safe, safeHash, Io(true, left >= 1, left >= entered + 1));
    if r != Ok {
      return false;
    }
    r := mgr.SetState(Scanning, Io(true, left >= entered + 2, true));
    return r == Ok;
  }

  // ---------------------------------------------------------------------
  // What a completed rollback achieves
  // ---------------------------------------------------------------------

  /** Some transaction with this hash was found in a block above `safe` and up
      to `from`. */
  predicate FoundIn(txs: seq<Tx>, hash: string, from: nat, safe: nat) {
    exists i :: 0 <= i < |txs| && txs[i].hash == hash && safe < txs[i].number <= from
  }

  /** The meaning of rolling the blocks in (safe, from] back. */
  ghost predicate BlocksRolledBack(s: Store, s': Store, from: nat, safe: nat) {
    && s'.blocks.Keys == s.blocks.Keys
    && (forall n :: n in s.blocks ==>
          s'.blocks[n] == if safe < n <= from then s.blocks[n].(status := Orphaned) else s.blocks[n])
    && |s'.txs| == |s.txs|
    && (forall i :: 0 <= i < |s.txs| ==>
          s'.txs[i] == if FoundIn(s.txs, s.txs[i].hash, from, safe) then s.txs[i].(status := Invalid) else s.txs[i])
    && s'.missing == s.missing && s'.failed == s.failed
  }

  lemma {:induction false} ApplyConcat(s: Store, a: seq<Write>, b: seq<Write>)
    ensures ApplyAll(s, a + b) == ApplyAll(ApplyAll(s, a), b)
    decreases |b|
  {
    if b == [] {
      assert a + b == a;
    } else {
      var init, last := b[..|b| - 1], b[|b| - 1];
      ApplyConcat(s, a, init);
      ApplySnoc(s, a + init, last);
      assert a + init + [last] == a + b;
    }
  }

  lemma {:induction false} SameRowsSameWrites(a: seq<Tx>, b: seq<Tx>, from: nat, safe: nat)
    requires SameRows(a, b)
    ensures BlockWrites(a, from, safe) == BlockWrites(b, from, safe)
    decreases from
  {
    if safe < from {
      SameRowsSameHashes(a, b, from);
      SameRowsSameWrites(a, b, from - 1, safe);
    }
  }

  lemma OneBlockRolledBack(s: Store, number: nat)
    requires 0 < number
    ensures var s' := ApplyAll(s, WritesFor(s.txs, number));
            BlocksRolledBack(s, s', number, number - 1) && s'.book == s.book
  {
    var count := |WritesFor(s.txs, number)|;
    ApplyWritesFor(s, [], number, count);
    assert [] + WritesFor(s.txs, number)[..count] == WritesFor(s.txs, number);
    var hashes := HashesAt(s.txs, number);
    assert hashes[..count - 1] == hashes;
    forall i | 0 <= i < |s.txs|
      ensures s.txs[i].hash in hashes <==> FoundIn(s.txs, s.txs[i].hash, number, number - 1)
    {
    }
  }

  lemma {:induction false} BlocksRollBack(s: Store, from: nat, safe: nat)
    ensures var s' := ApplyAll(s, BlockWrites(s.txs, from, safe));
            BlocksRolledBack(s, s', from, safe) && s'.book == s.book
    decreases from
  {
    if safe < from {
      var s1 := ApplyAll(s, WritesFor(s.txs, from));
      OneBlockRolledBack(s, from);
      FirstBlockFirst(s, from, safe);
      BlocksRollBack(s1, from - 1, safe);
      RolledBackTwice(s, s1, ApplyAll(s, BlockWrites(s.txs, from, safe)), from, safe);
    } else {
      NothingRolledBack(s, from, safe);
    }
  }

  /** The topmost block first, then the others as they follow from the result. */
  lemma FirstBlockFirst(s: Store, from: nat, safe: nat)
    requires safe < from && SameRows(s.txs, ApplyAll(s, WritesFor(s.txs, from)).txs)
    ensures var s1 := ApplyAll(s, WritesFor(s.txs, from));
            ApplyAll(s, BlockWrites(s.txs, from, safe)) == ApplyAll(s1, BlockWrites(s1.txs, from - 1, safe))
  {
    var s1 := ApplyAll(s, WritesFor(s.txs, from));
    SameRowsSameWrites(s.txs, s1.txs, from - 1, safe);
    ApplyConcat(s, WritesFor(s.txs, from), BlockWrites(s.txs, from - 1, safe));
  }

  lemma NothingRolledBack(s: Store, from: nat, safe: nat)
    requires from <= safe
    ensures BlocksRolledBack(s, s, from, safe)
  {
    assert forall i :: 0 <= i < |s.txs| ==> !FoundIn(s.txs, s.txs[i].hash, from, safe);
  }

  lemma RolledBackTwice(s: Store, s1: Store, s2: Store, from: nat, safe: nat)
    requires safe < from && BlocksRolledBack(s, s1, from, from - 1) && BlocksRolledBack(s1, s2, from - 1, safe)
    ensures BlocksRolledBack(s, s2, from, safe)
  {
    forall i | 0 <= i < |s.txs|
      ensures s2.txs[i] == if FoundIn(s.txs, s.txs[i].hash, from, safe) then s.txs[i].(status := Invalid) else s.txs[i]
    {
      FoundInSplit(s.txs, s1.txs, s.txs[i].hash, from, safe);
    }
  }

  lemma FoundInSplit(txs: seq<Tx>, later: seq<Tx>, hash: string, from: nat, safe: nat)
    requires SameRows(txs, later) && safe < from
    ensures FoundIn(txs, hash, from, safe) <==> FoundIn(txs, hash, from, from - 1) || FoundIn(later, hash, from - 1, safe)
  {
    if FoundIn(txs, hash, from, safe) {
      var i :| 0 <= i < |txs| && txs[i].hash == hash && safe < txs[i].number <= from;
      assert later[i].hash == hash && later[i].number == txs[i].number;
    }
    if FoundIn(later, hash, from - 1, safe) {
      var i :| 0 <= i < |later| && later[i].hash == hash && safe < later[i].number <= from - 1;
      assert txs[i].hash == hash && txs[i].number == later[i].number;
    }
  }

  /** A rollback that completes orphans exactly the stored blocks in
      (safe, from], invalidates exactly the transaction hashes found there,
      and leaves the cursor at the safe block, scanning: the same cursor the
      manager's `Rollback` and `SetState` produce. */
  lemma RollBackExact(s: Store, from: nat, safe: nat, safeHash: string, budget: nat)
    requires s.book.row.Some?
    requires budget >= |Plan(s, from, safe, safeHash)|
    ensures var (s', ok) := RollBack(s, from, safe, safeHash, budget);
            && ok
            && BlocksRolledBack(s, s', from, safe)
            && s'.book.row == Some(Cursor(safe, safeHash, Scanning))
            && s'.book == RunCalls(s.book, [Call(Op.Rollback(safe, safeHash), ALL_OK), Call(SetState(Scanning), ALL_OK)])
  {
    var blocks, cursor := BlockWrites(s.txs, from, safe), CursorWrites(s.book.row.value.state, safe, safeHash);
    BlocksRollBack(s, from, safe);
    ApplyConcat(s, blocks, cursor);
    ApplyCursorWrites(ApplyAll(s, blocks), safe, safeHash);
    RunPair(s.book, Call(Op.Rollback(safe, safeHash), ALL_OK), Call(SetState(Scanning), ALL_OK));
  }

  lemma RunPair(b: Book, first: Call, second: Call)
    ensures RunCalls(b, [first, second]) == Execute(Execute(b, first.op, first.io).0, second.op, second.io).0
  {
    assert [first][..0] == [];
    assert RunCalls(b, [first]) == Execute(b, first.op, first.io).0;
    assert [first, second][..1] == [first];
  }

  lemma ApplyCursorWrites(s: Store, safe: nat, safeHash: string)
    requires s.book.row.Some?
    ensures var entered := Execute(s.book, Op.Rollback(safe, safeHash), ALL_OK).0;
            ApplyAll(s, CursorWrites(s.book.row.value.state, safe, safeHash))
            == s.(book := Execute(entered, SetState(Scanning), ALL_OK).0)
  {
    CursorPart(s, safe, safeHash, 3);
  }
}
