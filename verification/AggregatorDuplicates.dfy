/** Four complete runs in which a step without the guard lets one batch go to two workers. */
module AggregatorDuplicates {
  import opened Wrappers
  import opened Aggregator

  const FIVE := Range(5, 5)
  const LOCKED: Table := map[FIVE := Row(true, false)]

  /** Nothing stored and nobody at work, with batch 5 the next to be proved. */
  const START := State(map[], map[], 4, None, map[])

  /** Worker 0 answers for batch 5, whose row may be gone. */
  function Proving(rows: Table, lastVerified: nat, selecting: Option<nat>): State {
    State(rows, map[0 := Generating(FIVE)], lastVerified, selecting, map[])
  }

  /** So do two workers. */
  const TWICE := State(LOCKED, map[0 := Generating(FIVE), 1 := Generating(FIVE)], 4, None, map[])

  ghost predicate StepTo(s: State, step: Step, s': State) {
    Enabled(s, step) && Apply(s, step) == s'
  }

  lemma FirstLock()
    ensures StepTo(START, BeginSelect, START.(selecting := Some(4)))
    ensures StepTo(START.(selecting := Some(4)), LockBatch(0, 5), Proving(LOCKED, 4, None))
  {
  }

  lemma SecondLock(lastVerified: nat)
    ensures StepTo(Proving(map[], lastVerified, Some(4)), LockBatch(1, 5), TWICE.(lastVerified := lastVerified))
    ensures !OneHolder(TWICE.(lastVerified := lastVerified))
  {
    var last := TWICE.(lastVerified := lastVerified);
    assert FIVE in last.tasks[0].Rows() && FIVE in last.tasks[1].Rows();
  }

  lemma SelectAgain()
    ensures StepTo(Proving(map[], 4, None), BeginSelect, Proving(map[], 4, Some(4)))
    ensures StepTo(Proving(LOCKED, 4, None), BeginSelect, Proving(LOCKED, 4, Some(4)))
  {
  }

  lemma VerifyAndClean(selecting: Option<nat>)
    ensures StepTo(Proving(LOCKED, 4, selecting), Verify(5), Proving(LOCKED, 5, selecting))
    ensures StepTo(Proving(LOCKED, 5, selecting), Cleanup(5), Proving(map[], 5, selecting))
  {
  }

  lemma Assemble(states: seq<State>, steps: seq<Step>)
    requires |states| == |steps| + 1 && states[0] == START
    requires forall i :: 0 <= i < |steps| ==> StepTo(states[i], steps[i], states[i + 1])
    ensures IsRun(states, steps)
  {
    forall i | 0 <= i < |steps|
      ensures Enabled(states[i], steps[i]) && states[i + 1] == Apply(states[i], steps[i])
    {
      assert StepTo(states[i], steps[i], states[i + 1]);
    }
  }

  const STALE_STEPS := [BeginSelect, LockBatch(0, 5), CleanupStale(FIVE), BeginSelect, LockBatch(1, 5)]

  const STALE_STATES := [
    START, START.(selecting := Some(4)), Proving(LOCKED, 4, None), Proving(map[], 4, None), Proving(map[], 4, Some(4)),
    TWICE ]

  /** A proof that takes longer than the clean-up threshold. */
  lemma StaleCleanupDuplicates()
    ensures IsRun(STALE_STATES, STALE_STEPS) && !OneHolder(STALE_STATES[5])
  {
    FirstLock();
    assert StepTo(Proving(LOCKED, 4, None), CleanupStale(FIVE), Proving(map[], 4, None));
    SelectAgain();
    SecondLock(4);
    Assemble(STALE_STATES, STALE_STEPS);
  }

  const ROLLBACK_STEPS := [
    BeginSelect, LockBatch(0, 5), Verify(5), Cleanup(5), Rollback(4), BeginSelect, LockBatch(1, 5) ]

  const ROLLBACK_STATES := [
    START, START.(selecting := Some(4)), Proving(LOCKED, 4, None), Proving(LOCKED, 5, None), Proving(map[], 5, None),
    Proving(map[], 4, None), Proving(map[], 4, Some(4)), TWICE ]

  /** A verification that an L1 reorg took back is confirmed again and cleaned up after, then taken back once more. */
  lemma RollbackDuplicates()
    ensures IsRun(ROLLBACK_STATES, ROLLBACK_STEPS) && !OneHolder(ROLLBACK_STATES[7])
  {
    FirstLock();
    VerifyAndClean(None);
    assert StepTo(Proving(map[], 5, None), Rollback(4), Proving(map[], 4, None));
    SelectAgain();
    SecondLock(4);
    Assemble(ROLLBACK_STATES, ROLLBACK_STEPS);
  }

  const SELECT_STEPS := [BeginSelect, LockBatch(0, 5), BeginSelect, Verify(5), Cleanup(5), LockBatch(1, 5)]

  const SELECT_STATES := [
    START, START.(selecting := Some(4)), Proving(LOCKED, 4, None), Proving(LOCKED, 4, Some(4)),
    Proving(LOCKED, 5, Some(4)), Proving(map[], 5, Some(4)), TWICE.(lastVerified := 5) ]

  /** A batch is verified and cleaned up after a selection read the last verified one and before it asked for work. */
  lemma StaleSelectionDuplicates()
    ensures IsRun(SELECT_STATES, SELECT_STEPS) && !OneHolder(SELECT_STATES[6])
  {
    FirstLock();
    SelectAgain();
    VerifyAndClean(Some(4));
    SecondLock(5);
    Assemble(SELECT_STATES, SELECT_STEPS);
  }

  /** Worker 0 has its proof of batch 5. */
  function Proved(rows: Table, lastVerified: nat, finals: map<Worker, nat>): State {
    State(rows, map[0 := Holding(FIVE)], lastVerified, None, finals)
  }

  const DISCARD_STEPS := [
    BeginSelect, LockBatch(0, 5), Generated(0), Verify(5), ReadForFinal(0), Rollback(4), Discard(0),
    BeginSelect, LockBatch(1, 5) ]

  const DISCARD_STATES := [
    START, START.(selecting := Some(4)), Proving(LOCKED, 4, None), Proved(LOCKED, 4, map[]), Proved(LOCKED, 5, map[]),
    Proved(LOCKED, 5, map[0 := 5]), Proved(LOCKED, 4, map[0 := 5]), Proved(map[], 4, map[]),
    Proved(map[], 4, map[]).(selecting := Some(4)),
    TWICE.(tasks := map[0 := Holding(FIVE), 1 := Generating(FIVE)]) ]

  lemma ProveAndRead()
    ensures StepTo(Proving(LOCKED, 4, None), Generated(0), Proved(LOCKED, 4, map[]))
    ensures StepTo(Proved(LOCKED, 4, map[]), Verify(5), Proved(LOCKED, 5, map[]))
    ensures StepTo(Proved(LOCKED, 5, map[]), ReadForFinal(0), Proved(LOCKED, 5, map[0 := 5]))
  {
  }

  lemma RollbackAndDiscard()
    ensures StepTo(Proved(LOCKED, 5, map[0 := 5]), Rollback(4), Proved(LOCKED, 4, map[0 := 5]))
    ensures StepTo(Proved(LOCKED, 4, map[0 := 5]), Discard(0), Proved(map[], 4, map[]))
    ensures StepTo(Proved(map[], 4, map[]), BeginSelect, Proved(map[], 4, map[]).(selecting := Some(4)))
  {
  }

  lemma LockDiscarded()
    ensures var last := TWICE.(tasks := map[0 := Holding(FIVE), 1 := Generating(FIVE)]);
            StepTo(Proved(map[], 4, map[]).(selecting := Some(4)), LockBatch(1, 5), last) && !OneHolder(last)
  {
    var last := TWICE.(tasks := map[0 := Holding(FIVE), 1 := Generating(FIVE)]);
    assert FIVE in last.tasks[0].Rows() && FIVE in last.tasks[1].Rows();
  }

  /** A worker throws its proof away as verified after an L1 reorg made the batch unverified again. */
  lemma StaleDiscardDuplicates()
    ensures IsRun(DISCARD_STATES, DISCARD_STEPS) && !OneHolder(DISCARD_STATES[9])
  {
    FirstLock();
    ProveAndRead();
    RollbackAndDiscard();
    LockDiscarded();
    Assemble(DISCARD_STATES, DISCARD_STEPS);
  }
}
