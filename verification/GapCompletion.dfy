/** Which recorded ranges can still be completed. */
module GapCompletion {
  import opened Stores
  import opened GapMachine

  /** A claimed row that no worker is working on. */
  ghost predicate Abandoned(x: World, i: nat) {
    && i < |x.rows| && x.rows[i].status == Processing
    && forall w :: 0 <= w < |x.workers| ==> x.workers[w].Idle? || x.workers[w].row != i
  }

  /** Safety is all there is: once a fetch has failed and no worker still holds
      the row, no run of actions ever claims or completes it again. */
  lemma {:induction false} AbandonedForever(x: World, acts: seq<Action>, i: nat)
    requires Abandoned(x, i)
    ensures Abandoned(DoAll(x, acts), i) && DoAll(x, acts).rows[i] == x.rows[i]
  {
    if acts != [] {
      AbandonedForever(x, acts[..|acts| - 1], i);
    }
  }

  lemma DoFirst(x: World, a: Action, rest: seq<Action>)
    ensures DoAll(x, [a] + rest) == DoAll(Do(x, a), rest)
  {
    DoOne(x, a);
    DoConcat(x, [a], rest);
  }

  /** A worker that has begun a row can finish it. */
  lemma {:induction false} CanFinish(x: World, w: nat, i: nat) returns (acts: seq<Action>)
    requires IsWorker(x, w) && i < |x.rows| && x.workers[w].Filling? && x.workers[w].row == i
    ensures Finished(DoAll(x, acts), i)
    decreases x.rows[i].to + 1 - x.workers[w].next
  {
    if x.workers[w].next <= x.rows[i].to {
      acts := CanFinish(Do(x, Fill(w)), w, i);
      DoFirst(x, Fill(w), acts);
      acts := [Fill(w)] + acts;
    } else {
      acts := [Complete(w)];
      DoOne(x, Complete(w));
    }
  }

  predicate Finished(x: World, i: nat) {
    i < |x.rows| && x.rows[i].status == Completed
  }

  /** The run completes row `i`. */
  predicate Finishes(x: World, acts: seq<Action>, i: nat) {
    Finished(DoAll(x, acts), i)
  }

  lemma CanFinishFromSeen(x: World, w: nat, i: nat) returns (acts: seq<Action>)
    requires IsWorker(x, w) && i < |x.rows| && x.workers[w] == Seen(i)
    ensures Finished(DoAll(x, acts), i)
  {
    acts := CanFinish(Do(x, Mark(w)), w, i);
    DoFirst(x, Mark(w), acts);
    acts := [Mark(w)] + acts;
  }

  lemma CanFinishFromWaiting(x: World, i: nat) returns (acts: seq<Action>)
    requires |x.workers| > 0 && i < |x.rows| && x.rows[i].status == Waiting
    ensures Finished(DoAll(x, acts), i)
  {
    var x1 := Do(x, GiveUp(0));
    var x2 := Do(x1, Look(0, i));
    acts := CanFinishFromSeen(x2, 0, i);
    DoFirst(x1, Look(0, i), acts);
    DoFirst(x, GiveUp(0), [Look(0, i)] + acts);
    acts := [GiveUp(0)] + ([Look(0, i)] + acts);
  }

  /** A recorded range can still be completed by some run if and only if it is
      not one that was claimed and then dropped. */
  lemma CompletableIff(x: World, i: nat)
    requires |x.workers| > 0 && i < |x.rows|
    ensures (exists acts :: Finishes(x, acts, i)) <==> !Abandoned(x, i)
  {
    if Abandoned(x, i) {
      forall acts ensures !Finishes(x, acts, i) {
        AbandonedForever(x, acts, i);
      }
    } else {
      var acts := [];
      if x.rows[i].status == Waiting {
        acts := CanFinishFromWaiting(x, i);
      } else if x.rows[i].status == Processing {
        var w :| 0 <= w < |x.workers| && !x.workers[w].Idle? && x.workers[w].row == i;
        if x.workers[w].Seen? {
          acts := CanFinishFromSeen(x, w, i);
        } else {
          acts := CanFinish(x, w, i);
        }
      }
      assert Finishes(x, acts, i);
    }
  }
}
