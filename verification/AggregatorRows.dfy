/** What becomes of the rows of the proof table: who watches a lock, what a release frees and what a removal removes. */
module AggregatorRows {
  import opened Wrappers
  import opened Aggregator

  // ----- Releasing and merging -----

  /** A release that takes effect frees every row of the worker that is still stored, and touches no other. */
  lemma ReleaseFrees(s: State, step: Step, r: Range)
    requires Enabled(s, step) && ((step.AggregateFailed? && step.unlocked) || (step.Release? && step.updated))
    ensures var s' := Apply(s, step);
            && step.w !in s'.tasks && (r in s'.rows <==> r in s.rows)
            && (r in s.rows ==> s'.rows[r] == if r in s.tasks[step.w].Rows() then Row(false, true) else s.rows[r])
  {
  }

  /** A merge puts one proven row, locked for its worker, in the place of two. */
  lemma MergeReplaces(s: State, w: Worker, r: Range)
    requires Inv(s) && Enabled(s, AggregateCommitted(w, true))
    ensures var s', merged := Apply(s, AggregateCommitted(w, true)), Range(s.tasks[w].r1.lo, s.tasks[w].r2.hi);
            && s'.tasks[w] == Holding(merged)
            && (r in s'.rows <==> r == merged || (r in s.rows && r != s.tasks[w].r1 && r != s.tasks[w].r2))
            && (r in s'.rows ==> s'.rows[r] == if r == merged then Row(true, true) else s.rows[r])
  {
    DeleteIsPrecise(s, w);
    assert s.tasks[w].WellFormed();
  }

  // ----- Removing -----

  /** Clean-ups, discards, resets and restarts remove exactly the rows they are about, and change no other. */
  lemma RemovalExact(s: State, step: Step, r: Range)
    requires Inv(s) && Enabled(s, step)
    requires step.Discard? || step.Cleanup? || step.CleanupStale? || step.DropBatches? || step.Restart?
    ensures var rows := Apply(s, step).rows;
            && (r in rows <==> r in s.rows && match step
                                               case Discard(w) => r != s.tasks[w].r
                                               case Cleanup(upTo) => !(r.hi <= upTo)
                                               case CleanupStale(q) => r != q
                                               case DropBatches(n) => !(r.hi > n)
                                               case _ => !s.rows[r].locked)
            && (r in rows ==> rows[r] == s.rows[r])
  {
    if step.Discard? {
      DeleteIsPrecise(s, step.w);
    }
  }

  // ----- Selecting -----

  /** A selection begun now can hand an idle worker exactly the unverified batches that no row covers. */
  lemma SelectionFinds(s: State, w: Worker, b: nat)
    requires s.selecting.None? && w !in s.tasks
    ensures Enabled(Apply(s, BeginSelect), LockBatch(w, b)) <==>
            b > s.lastVerified && forall r :: r in s.rows ==> !(r.lo <= b <= r.hi)
  {
    if exists r :: r in s.rows && r.lo <= b <= r.hi {
      var r :| r in s.rows && r.lo <= b <= r.hi;
      assert r.Has(b);
    }
  }

  // ----- Who watches a lock -----

  ghost predicate Shaped(s: State) {
    && (forall r :: r in s.rows ==> r.lo <= r.hi)
    && (forall w :: w in s.tasks ==> s.tasks[w].WellFormed())
    && (forall r :: r in s.rows && !s.rows[r].locked ==> s.rows[r].proven)
  }

  lemma StepKeepsShape(s: State, step: Step)
    requires Shaped(s) && Enabled(s, step)
    ensures Shaped(Apply(s, step))
  {
    if step.AggregateCommitted? {
      assert s.tasks[step.w].WellFormed();
    }
  }

  ghost predicate Watched(s: State) {
    forall r :: r in s.rows && s.rows[r].locked ==> Live(s, r)
  }

  /** A worker goes away and leaves its rows as they are. */
  predicate Abandons(step: Step) {
    || step.Vanish?
    || (step.GenerateFailed? && !step.deleted)
    || (step.AggregateFailed? && !step.unlocked)
    || (step.AggregateCommitted? && !step.reported)
    || (step.Release? && !step.updated)
  }

  lemma StillLive(s: State, s': State, gone: Worker, r: Range)
    requires Live(s, r) && (gone in s.tasks ==> r !in s.tasks[gone].Rows())
    requires forall v :: v in s.tasks && v != gone ==> v in s'.tasks && s'.tasks[v].Rows() == s.tasks[v].Rows()
    ensures Live(s', r)
  {
    var v :| v in s.tasks && r in s.tasks[v].Rows();
    assert v in s'.tasks && r in s'.tasks[v].Rows();
  }

  /** A worker that stops in an orderly way leaves none of its rows locked. */
  lemma StopLeavesNone(s: State, step: Step, r: Range)
    requires step.GenerateFailed? || step.AggregateFailed? || step.Release?
    requires Shaped(s) && Enabled(s, step) && !Abandons(step)
    ensures var rows := Apply(s, step).rows;
            r in rows && rows[r].locked ==> r in s.rows && s.rows[r].locked && r !in s.tasks[step.w].Rows()
  {
  }

  lemma StopKeepsWatched(s: State, step: Step)
    requires step.GenerateFailed? || step.AggregateFailed? || step.Release?
    requires Shaped(s) && Watched(s) && Enabled(s, step) && !Abandons(step)
    ensures Watched(Apply(s, step))
  {
    var s' := Apply(s, step);
    forall r | r in s'.rows && s'.rows[r].locked
      ensures Live(s', r)
    {
      StopLeavesNone(s, step, r);
      StillLive(s, s', step.w, r);
    }
  }

  lemma MergeKeepsWatched(s: State, step: Step)
    requires Shaped(s) && Watched(s) && Enabled(s, step) && step.AggregateCommitted? && step.reported
    ensures Watched(Apply(s, step))
  {
    var s', w := Apply(s, step), step.w;
    var merged := s.tasks[w].Claim();
    assert s.tasks[w].WellFormed();
    forall r | r in s'.rows && s'.rows[r].locked
      ensures Live(s', r)
    {
      if r == merged {
        assert w in s'.tasks && merged in s'.tasks[w].Rows();
      } else {
        assert r !in s.tasks[w].Rows();
        StillLive(s, s', w, r);
      }
    }
  }

  lemma HandOverKeepsWatched(s: State, step: Step)
    requires Watched(s) && Enabled(s, step) && step.HandOver?
    ensures Watched(Apply(s, step))
  {
    var s' := Apply(s, step);
    forall r | r in s'.rows && s'.rows[r].locked
      ensures Live(s', r)
    {
      if r in s.tasks[step.w].Rows() {
        assert step.to in s'.tasks && r in s'.tasks[step.to].Rows();
      } else {
        StillLive(s, s', step.w, r);
      }
    }
  }

  /** Steps that take rows for a new worker, or leave all tasks with their rows. */
  lemma OtherKeepsWatched(s: State, step: Step)
    requires Watched(s) && Enabled(s, step)
    requires !step.GenerateFailed? && !step.AggregateFailed? && !step.Release? && !step.AggregateCommitted?
    requires !step.HandOver? && !step.Vanish? && !step.Restart?
    ensures Watched(Apply(s, step))
  {
    var s' := Apply(s, step);
    forall r | r in s'.rows && s'.rows[r].locked
      ensures Live(s', r)
    {
      if step.LockBatch? || step.LockPair? || step.LockForFinal? {
        if r in s'.tasks[step.w].Rows() {
          assert Live(s', r);
        } else {
          StillLive(s, s', step.w, r);
        }
      } else if step.Generated? {
        if r in s'.tasks[step.w].Rows() {
          assert Live(s', r);
        } else {
          StillLive(s, s', step.w, r);
        }
      } else {
        assert Live(s, r);
        var v :| v in s.tasks && r in s.tasks[v].Rows();
        assert v in s'.tasks && r in s'.tasks[v].Rows();
      }
    }
  }

  lemma StepKeepsWatched(s: State, step: Step)
    requires Shaped(s) && Watched(s) && Enabled(s, step) && !Abandons(step)
    ensures Watched(Apply(s, step))
  {
    if step.GenerateFailed? || step.AggregateFailed? || step.Release? {
      StopKeepsWatched(s, step);
    } else if step.AggregateCommitted? {
      MergeKeepsWatched(s, step);
    } else if step.HandOver? {
      HandOverKeepsWatched(s, step);
    } else if !step.Restart? {
      OtherKeepsWatched(s, step);
    }
  }

  /** In every state of every run, guarded or not, a row that is not locked holds a proof. */
  lemma {:induction false} ReachableShape(states: seq<State>, steps: seq<Step>, i: nat)
    requires IsRun(states, steps) && i < |states|
    ensures Shaped(states[i])
  {
    if i > 0 {
      ReachableShape(states, steps, i - 1);
      StepKeepsShape(states[i - 1], steps[i - 1]);
    }
  }

  /**
   Over every run, guarded or not: a stored locked row has a worker that answers for it, unless since the start
   or the last restart some worker went away and left its rows as they were.
   */
  lemma {:induction false} LockedHasWorker(states: seq<State>, steps: seq<Step>, start: nat, i: nat)
    requires IsRun(states, steps) && start <= i < |states| && (start == 0 || steps[start - 1].Restart?)
    requires forall j :: start <= j < i ==> !Abandons(steps[j])
    ensures Watched(states[i])
    decreases i
  {
    if start < i {
      LockedHasWorker(states, steps, start, i - 1);
      ReachableShape(states, steps, i - 1);
      StepKeepsWatched(states[i - 1], steps[i - 1]);
    } else if start > 0 {
      assert states[i] == Apply(states[i - 1], steps[i - 1]);
    }
  }
}
