/** The pipeline step together with the finality buffer it emits to.  Events go
    to the buffer before the block is committed, so a commit that fails is
    followed by a retry that emits them again. */
module Delivery {
  import opened Options
  import opened Stores
  import opened Pipeline
  import Reorg
  import Finality

  datatype Joint = Joint(store: Store, buffer: Finality.State)

  /** What a step meets.  `env.relevant` are the transactions found; `accept`
      says for each event whether the inner emitter takes it when asked at
      once; `order` and `refused` are for the notification of the new height. */
  datatype Meeting = Meeting(env: Env, accept: seq<bool>, order: seq<nat>, refused: set<nat>)

  function EventsOf(number: nat, txs: seq<Tx>): (es: seq<Finality.Event>)
    ensures |es| == |txs| && forall i :: 0 <= i < |txs| ==> es[i] == Finality.Event(number, txs[i].hash)
  {
    seq(|txs|, i requires 0 <= i < |txs| => Finality.Event(number, txs[i].hash))
  }

  /** The step gets as far as emitting: there is a cursor, no jump is made, the
      block is there and fits, and its transactions could be had. */
  predicate Reaches(cfg: Config, s: Store, env: Env) {
    var located := EnsureCursor(s, env);
    && located.Some?
    && var at := located.value;
    && at.book.row.Some?
    && var c := at.book.row.value.number;
    && !(ShouldJump(cfg, c, env) && JumpToHead(at, c + 1, env.head.value, env).1)
    && env.fetchOk && c + 1 in env.remote
    && Reorg.Compare(at.blocks, env.readFails, c + 1, env.remote[c + 1].parent, cfg.maxDepth).NoReorg?
    && env.relevant.Some?
  }

  function Target(s: Store, env: Env): nat
    requires EnsureCursor(s, env).Some? && EnsureCursor(s, env).value.book.row.Some?
  {
    EnsureCursor(s, env).value.book.row.value.number + 1
  }

  function Batch(cfg: Config, s: Store, env: Env): seq<Finality.Event>
    requires Reaches(cfg, s, env)
  {
    EventsOf(Target(s, env), env.relevant.value)
  }

  predicate Fits(cfg: Config, j: Joint, m: Meeting) {
    Reaches(cfg, j.store, m.env) ==> |m.accept| == |m.env.relevant.value|
  }

  /** Emit, notify, then persist; a refused batch is handled like any failure of
      the step, a failed notification is not. */
  function Advance(cfg: Config, c: nat, j: Joint, m: Meeting): Joint {
    if !Fits(cfg, j, m) then j
    else if !Reaches(cfg, j.store, m.env) then j.(store := Step(cfg, j.store, m.env).0)
    else
      var (queued, ok) := Finality.QueueAll(c, j.buffer, Batch(cfg, j.store, m.env), m.accept);
      if !ok then Joint(Step(cfg, j.store, m.env.(relevant := None)).0, queued)
      else
        Joint(Step(cfg, j.store, m.env).0,
              Finality.NewBlock(c, queued, Target(j.store, m.env), m.order, m.refused).0)
  }

  function AdvanceAll(cfg: Config, c: nat, j: Joint, ms: seq<Meeting>): Joint {
    if ms == [] then j else Advance(cfg, c, AdvanceAll(cfg, c, j, ms[..|ms| - 1]), ms[|ms| - 1])
  }

  // ---------------------------------------------------------------------
  // What a step accepts and what it commits
  // ---------------------------------------------------------------------

  /** The events of a batch the buffer takes. */
  function Taken(c: nat, es: seq<Finality.Event>, accept: seq<bool>): seq<Finality.Event>
    requires |accept| == |es|
  {
    if es == [] || (c == 0 && !accept[0]) then [] else [es[0]] + Taken(c, es[1..], accept[1..])
  }

  lemma {:induction false} QueueAllTaken(c: nat, f: Finality.State, es: seq<Finality.Event>, accept: seq<bool>)
    requires |accept| == |es|
    ensures var (f', ok) := Finality.QueueAll(c, f, es, accept);
            && f'.accepted == f.accepted + Taken(c, es, accept)
            && (ok ==> Taken(c, es, accept) == es)
            && (!ok ==> |Taken(c, es, accept)| < |es|)
    decreases |es|
  {
    if es != [] && !(c == 0 && !accept[0]) {
      QueueAllTaken(c, Finality.Queue(c, f, es[0], accept[0]), es[1..], accept[1..]);
    }
  }

  lemma {:induction false} FlushKeepsAccepted(f: Finality.State, blocks: seq<nat>, refused: set<nat>)
    ensures Finality.Flush(f, blocks, refused).0.accepted == f.accepted
    decreases |blocks|
  {
    if blocks != [] {
      FlushKeepsAccepted(Finality.Release(f, blocks[0]), blocks[1..], refused);
    }
  }

  /** What the step gives to the buffer. */
  function Given(cfg: Config, c: nat, j: Joint, m: Meeting): seq<Finality.Event> {
    if Fits(cfg, j, m) && Reaches(cfg, j.store, m.env)
    then Taken(c, Batch(cfg, j.store, m.env), m.accept) else []
  }

  /** The step emits its whole batch and the database takes the block. */
  predicate Commits(cfg: Config, c: nat, j: Joint, m: Meeting) {
    && Fits(cfg, j, m) && Reaches(cfg, j.store, m.env)
    && Taken(c, Batch(cfg, j.store, m.env), m.accept) == Batch(cfg, j.store, m.env)
    && m.env.commitOk
    && !HashTaken(j.store.blocks, Target(j.store, m.env), m.env.remote[Target(j.store, m.env)].hash)
  }

  /** The events of the blocks committed, in order of the commits. */
  function Committed(cfg: Config, c: nat, j: Joint, ms: seq<Meeting>): seq<Finality.Event> {
    if ms == [] then []
    else
      var init, m := ms[..|ms| - 1], ms[|ms| - 1];
      var mid := AdvanceAll(cfg, c, j, init);
      Committed(cfg, c, j, init) + if Commits(cfg, c, mid, m) then Given(cfg, c, mid, m) else []
  }

  /** No step gave events to the buffer and then failed to commit its block. */
  predicate NothingWasted(cfg: Config, c: nat, j: Joint, ms: seq<Meeting>) {
    ms == [] ||
    (var init, m := ms[..|ms| - 1], ms[|ms| - 1];
     var mid := AdvanceAll(cfg, c, j, init);
     NothingWasted(cfg, c, j, init) && (Given(cfg, c, mid, m) == [] || Commits(cfg, c, mid, m)))
  }

  lemma AdvanceGives(cfg: Config, c: nat, j: Joint, m: Meeting)
    ensures Advance(cfg, c, j, m).buffer.accepted == j.buffer.accepted + Given(cfg, c, j, m)
  {
    if Fits(cfg, j, m) && Reaches(cfg, j.store, m.env) {
      var es := Batch(cfg, j.store, m.env);
      QueueAllTaken(c, j.buffer, es, m.accept);
      var queued := Finality.QueueAll(c, j.buffer, es, m.accept).0;
      var number := Target(j.store, m.env);
      if number >= c {
        FlushKeepsAccepted(queued, Finality.UpTo(m.order, number - c), m.refused);
      }
    }
  }

  /** By this account a step commits if and only if it stores the block and
      moves the cursor onto it. */
  lemma CommitsExact(cfg: Config, c: nat, j: Joint, m: Meeting)
    requires Fits(cfg, j, m) && Reaches(cfg, j.store, m.env)
    ensures var s', number := Advance(cfg, c, j, m).store, Target(j.store, m.env);
            && s'.book.row.Some?
            && (Commits(cfg, c, j, m) <==> s'.book.row.value.number == number)
            && (Commits(cfg, c, j, m) ==> number in s'.blocks && s'.blocks[number] == Row(m.env.remote[number], Processed))
            && (!Commits(cfg, c, j, m) ==> s'.blocks == j.store.blocks)
  {
    QueueAllTaken(c, j.buffer, Batch(cfg, j.store, m.env), m.accept);
    ReachesFollows(cfg, j.store, m.env, m.env.relevant);
    ReachesFollows(cfg, j.store, m.env, None);
  }

  /** A step that reaches emission is decided by what follows. */
  lemma ReachesFollows(cfg: Config, s: Store, env: Env, relevant: Option<seq<Tx>>)
    requires Reaches(cfg, s, env)
    ensures var s' := Step(cfg, s, env.(relevant := relevant)).0;
            var number := Target(s, env);
            && s'.book.row.Some?
            && if relevant.Some? && env.commitOk && !HashTaken(s.blocks, number, env.remote[number].hash)
               then s'.book.row.value.number == number && s'.blocks == s.blocks[number := Row(env.remote[number], Processed)]
               else s'.book.row.value.number == number - 1 && s'.blocks == s.blocks
  {
    var at := EnsureCursor(s, env).value;
    var c := at.book.row.value.number;
    var env' := env.(relevant := relevant);
    if ShouldJump(cfg, c, env) {
      assert Step(cfg, s, env') == Follow(cfg, JumpToHead(at, c + 1, env.head.value, env).0, env');
    } else {
      assert Step(cfg, s, env') == Follow(cfg, at, env');
    }
  }

  lemma {:induction false} RunGives(cfg: Config, c: nat, j: Joint, ms: seq<Meeting>)
    requires j.buffer.accepted == []
    ensures var accepted := AdvanceAll(cfg, c, j, ms).buffer.accepted;
            && |Committed(cfg, c, j, ms)| <= |accepted|
            && (NothingWasted(cfg, c, j, ms) ==> accepted == Committed(cfg, c, j, ms))
            && (!NothingWasted(cfg, c, j, ms) ==> |Committed(cfg, c, j, ms)| < |accepted|)
  {
    if ms != [] {
      var init, m := ms[..|ms| - 1], ms[|ms| - 1];
      RunGives(cfg, c, j, init);
      AdvanceGives(cfg, c, AdvanceAll(cfg, c, j, init), m);
    }
  }

  /** Over every run, with any confirmations: the buffer has accepted exactly the
      events of the committed blocks, once per commit and in order, if and only
      if no step emitted events and then failed to commit. */
  lemma OncePerCommitIff(cfg: Config, c: nat, s: Store, ms: seq<Meeting>)
    ensures var j := Joint(s, Finality.Start);
            AdvanceAll(cfg, c, j, ms).buffer.accepted == Committed(cfg, c, j, ms) <==> NothingWasted(cfg, c, j, ms)
  {
    RunGives(cfg, c, Joint(s, Finality.Start), ms);
  }

  // ---------------------------------------------------------------------
  // The buffer's own laws hold of the joint run
  // ---------------------------------------------------------------------

  /** Each notification walks the map of its own moment. */
  ghost predicate LegalRun(cfg: Config, c: nat, j: Joint, ms: seq<Meeting>) {
    ms == [] ||
    (var init, m := ms[..|ms| - 1], ms[|ms| - 1];
     var mid := AdvanceAll(cfg, c, j, init);
     && LegalRun(cfg, c, j, init)
     && (Fits(cfg, mid, m) && Reaches(cfg, mid.store, m.env) ==>
           Finality.Enumerates(m.order, Finality.QueueAll(c, mid.buffer, Batch(cfg, mid.store, m.env), m.accept).0)))
  }

  lemma {:induction false} RunsConcat(c: nat, f: Finality.State, a: seq<Finality.Op>, mid: Finality.State, b: seq<Finality.Op>, f': Finality.State)
    requires Finality.Runs(c, f, a, mid) && Finality.Runs(c, mid, b, f')
    ensures Finality.Runs(c, f, a + b, f')
    decreases |a|
  {
    if a == [] {
      assert a + b == b;
    } else {
      assert (a + b)[1..] == a[1..] + b;
      RunsConcat(c, Finality.Do(c, f, a[0]), a[1..], mid, b, f');
    }
  }

  lemma AdvanceRuns(cfg: Config, c: nat, j: Joint, m: Meeting) returns (ops: seq<Finality.Op>)
    requires Fits(cfg, j, m) && Reaches(cfg, j.store, m.env) ==>
               Finality.Enumerates(m.order, Finality.QueueAll(c, j.buffer, Batch(cfg, j.store, m.env), m.accept).0)
    ensures Finality.Runs(c, j.buffer, ops, Advance(cfg, c, j, m).buffer)
  {
    ops := [];
    if Fits(cfg, j, m) && Reaches(cfg, j.store, m.env) {
      var es := Batch(cfg, j.store, m.env);
      var (queued, ok) := Finality.QueueAll(c, j.buffer, es, m.accept);
      var first := Finality.QueueOp(es, m.accept);
      var second := Finality.NewBlockOp(Target(j.store, m.env), m.order, m.refused);
      assert Finality.Do(c, j.buffer, first) == queued;
      if ok {
        var last := Finality.Do(c, queued, second);
        assert [second][1..] == [] && Finality.Runs(c, last, [], last);
        assert Finality.Runs(c, queued, [second], last);
        ops := [first, second];
        assert ops[1..] == [second];
      } else {
        ops := [first];
        assert ops[1..] == [] && Finality.Runs(c, queued, [], queued);
      }
    }
  }

  lemma {:induction false} JointIsBufferRun(cfg: Config, c: nat, j: Joint, ms: seq<Meeting>) returns (ops: seq<Finality.Op>)
    requires LegalRun(cfg, c, j, ms)
    ensures Finality.Runs(c, j.buffer, ops, AdvanceAll(cfg, c, j, ms).buffer)
  {
    ops := [];
    if ms != [] {
      var init, m := ms[..|ms| - 1], ms[|ms| - 1];
      var mid := AdvanceAll(cfg, c, j, init);
      ops := JointIsBufferRun(cfg, c, j, init);
      var more := AdvanceRuns(cfg, c, mid, m);
      RunsConcat(c, j.buffer, ops, mid.buffer, more, Advance(cfg, c, mid, m).buffer);
      ops := ops + more;
    }
  }

  /** So in a run without waste every event of a committed block was sent, was
      dropped, or waits, as often as its block was committed. */
  lemma CommittedIsDelivered(cfg: Config, c: nat, s: Store, ms: seq<Meeting>, e: Finality.Event)
    requires LegalRun(cfg, c, Joint(s, Finality.Start), ms) && NothingWasted(cfg, c, Joint(s, Finality.Start), ms)
    ensures var j := Joint(s, Finality.Start);
            var f := AdvanceAll(cfg, c, j, ms).buffer;
            multiset(Committed(cfg, c, j, ms))[e] ==
              multiset(Finality.SentEvents(f.exits))[e] + multiset(Finality.DroppedEvents(f.exits))[e]
              + multiset(Finality.Waiting(f, e.block))[e]
  {
    var j := Joint(s, Finality.Start);
    var ops := JointIsBufferRun(cfg, c, j, ms);
    OncePerCommitIff(cfg, c, s, ms);
    Finality.EventsConserved(c, ops, AdvanceAll(cfg, c, j, ms).buffer, e);
  }
}
