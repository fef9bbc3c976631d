/**
 The aggregator's own methods, with their database transactions staged on a copy of the table: whatever
 fails on the way, what they do to the shared state is one step of the protocol, or nothing.
 */
module AggregatorClient {
  import opened Wrappers
  import opened Aggregator

  /** A write may fail for real, or take effect without the client hearing of it. */
  datatype Commit = Committed | NotCommitted | CommittedUnheard

  /** The state after worker `w` tried to lock something: an unheard lock is held by nobody. */
  function AfterLock(s: State, lock: Step, w: Worker, outcome: Commit): State
    requires Enabled(s, lock) && w in Apply(s, lock).tasks
  {
    match outcome
    case Committed => Apply(s, lock)
    case NotCommitted => s
    case CommittedUnheard => Apply(Apply(s, lock), Vanish(w))
  }

  class Coordinator {
    var rows: Table
    var tasks: map<Worker, Task>
    var lastVerified: nat
    /** What the selection that holds the mutex has read. */
    var selecting: Option<nat>
    /** What workers have read before they look for, or check, a proof to be verified. */
    var finals: map<Worker, nat>

    function Now(): State
      reads this
    {
      State(rows, tasks, lastVerified, selecting, finals)
    }

    /** The first part of `getAndLockBatchToProve`: takes the mutex and reads the last verified batch. */
    method BeginSelection()
      requires Enabled(Now(), BeginSelect)
      modifies this
      ensures Now() == Apply(old(Now()), BeginSelect)
    {
      selecting := Some(lastVerified);
    }

    /**
     The rest of it, on a table and a last verified batch that may have moved since. `found` is what the query
     for an unproved batch past the one read returned, `None` if it found none or some call failed.
     */
    method GetAndLockBatchToProve(w: Worker, found: Option<nat>, added: Commit) returns (ok: bool)
      requires selecting.Some?
      requires found.Some? ==> Enabled(Now(), LockBatch(w, found.value))
      modifies this
      ensures ok == (found.Some? && added == Committed)
      ensures Now() == if found.None? || added == NotCommitted then Apply(old(Now()), EndSelect)
                       else AfterLock(old(Now()), LockBatch(w, found.value), w, added)
    {
      selecting := None;
      if found.None? {
        return false;
      }
      var r := Range(found.value, found.value);
      if added != NotCommitted {
        rows := rows[r := Row(true, false)];
      }
      if added == Committed {
        tasks := tasks[w := Generating(r)];
        return true;
      }
      if added == CommittedUnheard {
        assert tasks[w := Generating(r)] - {w} == tasks;
        finals := finals - {w};  // the worker starts over
      }
      return false;
    }

    /** `r1` and `r2` are what the query for two mergeable proofs returned; both are locked or neither is. */
    method GetAndLockBatchProofsToAggregate(
      w: Worker, r1: Range, r2: Range, begun: bool, updated1: bool, updated2: bool, commit: Commit) returns (ok: bool)
      requires Enabled(Now(), LockPair(w, r1, r2))
      modifies this
      ensures ok == (begun && updated1 && updated2 && commit == Committed)
      ensures Now() == AfterLock(old(Now()), LockPair(w, r1, r2), w,
                                 if begun && updated1 && updated2 then commit else NotCommitted)
    {
      if !begun {
        return false;
      }
      var tx, err := rows, false;
      if updated1 {
        tx := UpdateRow(tx, r1, Row(true, true));
        if updated2 {
          tx := UpdateRow(tx, r2, Row(true, true));
        } else {
          err := true;
        }
      } else {
        err := true;
      }
      if err {
        return false;
      }
      if commit != NotCommitted {
        rows := tx;
      }
      if commit != Committed {
        assert tasks[w := Aggregating(r1, r2)] - {w} == tasks;
        if commit == CommittedUnheard {
          finals := finals - {w};  // the worker starts over
        }
        return false;
      }
      tasks := tasks[w := Aggregating(r1, r2)];
      return true;
    }

    /** Releases both proofs, or neither; the worker is done with them either way. */
    method UnlockBatchProofsToAggregate(
      w: Worker, begun: bool, updated1: bool, updated2: bool, commit: Commit) returns (heard: bool)
      requires Enabled(Now(), AggregateFailed(w, true))
      modifies this
      ensures heard == (begun && updated1 && updated2 && commit == Committed)
      ensures Now() == Apply(old(Now()),
                             AggregateFailed(w, begun && updated1 && updated2 && commit != NotCommitted))
    {
      var Aggregating(r1, r2) := tasks[w];
      tasks := tasks - {w};
      if !begun || !updated1 || !updated2 {
        return false;
      }
      var tx := UpdateRow(rows, r1, Row(false, true));
      tx := UpdateRow(tx, r2, Row(false, true));
      if commit != NotCommitted {
        rows := tx;
      }
      return commit == Committed;
    }

    /** Merges two locked proofs once the prover has answered, with the deferred unlock on every error. */
    method TryAggregateBatchProofs(
      w: Worker, proved: bool, begun: bool, deleted: bool, added: bool, commit: Commit, unlock: Commit)
      returns (merged: bool)
      requires Enabled(Now(), AggregateCommitted(w, true)) && Inv(Now())
      modifies this
      ensures var stored := proved && begun && deleted && added;
              && merged == (stored && commit == Committed)
              && Now() == Apply(old(Now()),
                   if stored && commit != NotCommitted then AggregateCommitted(w, commit == Committed)
                   else AggregateFailed(w, unlock != NotCommitted))
    {
      var Aggregating(r1, r2) := tasks[w];
      var claim := Range(r1.lo, r2.hi);
      var err := true;
      if proved && begun {
        var tx := rows;
        if deleted {
          tx := DeleteBatchProofs(tx, claim);
          if added {
            tx := tx[claim := Row(true, true)];
            if commit != NotCommitted {
              rows := tx;
            }
            err := commit != Committed;
          }
        }
      }
      if err {
        assert tasks[w].WellFormed();
        var _ := UnlockBatchProofsToAggregate(w, true, true, true, unlock);
        return false;
      }
      tasks := tasks[w := Holding(claim)];
      return true;
    }

    /**
     Checks a worker's own proof against what it read earlier. `deleted` is the answer to the deletion of a proof
     that looks verified, `complete` that of the query for complete sequences, `None` if it failed.
     */
    method ValidateEligibleFinalProof(w: Worker, deleted: Commit, complete: Option<bool>) returns (r: Result<bool>)
      requires w in tasks && tasks[w].Holding? && w in finals && tasks[w].WellFormed()
      modifies this
      ensures r == Ok(true) <==> old(tasks[w].r.Has(finals[w] + 1)) && complete == Some(true)
      ensures r == Err <==> if old(tasks[w].r.hi) <= old(finals[w]) then deleted != Committed
                            else old(tasks[w].r.Has(finals[w] + 1)) && complete.None?
      ensures Now() == if old(tasks[w].r.hi) <= old(finals[w]) && deleted != NotCommitted
                       then Apply(old(Now()), Discard(w)) else old(Now())
    {
      var proof, next := tasks[w].r, finals[w] + 1;
      if proof.lo != next {
        if proof.lo < next && proof.hi >= next {
        } else if proof.hi < next {
          if deleted != NotCommitted {
            rows, finals := DeleteBatchProofs(rows, proof), finals - {w};
          }
          return if deleted == Committed then Ok(false) else Err;
        } else {
          return Ok(false);
        }
      }
      return if complete.None? then Err else Ok(complete.value);
    }
  }
}
