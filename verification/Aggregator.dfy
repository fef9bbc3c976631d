/**
 Any number of provers generating and merging batch proofs over one table
 (aggregator/batch.go, aggregator/final.go; the queries are in state/pgstatestorage/proof.go and batch.go),
 while the synchronizer may take verified batches back.

 Each step is one statement or one database transaction of one worker; steps of different workers interleave
 freely. A worker is a prover connection, or the loop that sends final proofs. What a worker read of the last
 verified batch may be out of date by the time it acts on it.
 */
module Aggregator {
  import opened Wrappers

  /** A row's key: the first and last batch its proof covers. */
  datatype Range = Range(lo: nat, hi: nat) {
    predicate Has(b: nat) {
      lo <= b <= hi
    }
    predicate Disjoint(other: Range) {
      hi < other.lo || other.hi < lo
    }
    predicate Within(other: Range) {
      other.lo <= lo && hi <= other.hi
    }
  }

  /** `locked` is a non-null generating_since, `proven` a non-null proof. */
  datatype Row = Row(locked: bool, proven: bool)

  type Table = map<Range, Row>

  /** What a worker is in the middle of. */
  datatype Task =
    | Generating(r: Range)
    | Aggregating(r1: Range, r2: Range)
    | Holding(r: Range)
  {
    /** The rows the worker locked. */
    function Rows(): set<Range> {
      if Aggregating? then {r1, r2} else {r}
    }
    /** The batches the worker answers for. */
    function Claim(): Range {
      if Aggregating? then Range(r1.lo, r2.hi) else r
    }
    predicate WellFormed() {
      if Aggregating? then r1.lo <= r1.hi && r1.hi + 1 == r2.lo && r2.lo <= r2.hi else r.lo <= r.hi
    }
  }

  type Worker = nat

  /**
   `selecting` is the last verified batch as read by the selection that holds the mutex, and `finals` as read by
   workers that are looking for, or checking, a proof to be verified.
   */
  datatype State = State(
    rows: Table, tasks: map<Worker, Task>, lastVerified: nat, selecting: Option<nat>, finals: map<Worker, nat>)

  // ----- The table's queries -----

  predicate Covered(rows: Table, b: nat) {
    exists r :: r in rows && r.Has(b)
  }

  function DeleteBatchProofs(rows: Table, range: Range): Table {
    map r | r in rows && !r.Within(range) :: rows[r]
  }

  /** Deletes the proofs of verified batches. */
  function CleanupBatchProofs(rows: Table, upTo: nat): Table {
    map r | r in rows && r.hi > upTo :: rows[r]
  }

  /** What is left when the batches past `n` are deleted, and their proofs with them. */
  function KeepBatchesUpTo(rows: Table, n: nat): Table {
    map r | r in rows && r.hi <= n :: rows[r]
  }

  function DeleteUngenerated(rows: Table): Table {
    map r | r in rows && !rows[r].locked :: rows[r]
  }

  function UpdateRow(rows: Table, r: Range, row: Row): Table {
    if r in rows then rows[r := row] else rows
  }

  // ----- The steps -----

  datatype Step =
    | BeginSelect
    | EndSelect
    | LockBatch(w: Worker, b: nat)
    | GenerateFailed(w: Worker, deleted: bool)
    | Generated(w: Worker)
    | LockPair(w: Worker, r1: Range, r2: Range)
    | AggregateFailed(w: Worker, unlocked: bool)
    | AggregateCommitted(w: Worker, reported: bool)
    | ReadForFinal(w: Worker)
    | LockForFinal(w: Worker, r: Range)
    | Discard(w: Worker)
    | HandOver(w: Worker, to: Worker)
    | Release(w: Worker, updated: bool)
    | Vanish(w: Worker)
    | Verify(n: nat)
    | Rollback(n: nat)
    | DropBatches(n: nat)
    | Cleanup(upTo: nat)
    | CleanupStale(r: Range)
    | Restart

  predicate Enabled(s: State, step: Step) {
    match step
    case BeginSelect => s.selecting.None?
    case EndSelect => s.selecting.Some?
    case LockBatch(w, b) => w !in s.tasks && s.selecting.Some? && b > s.selecting.value && !Covered(s.rows, b)
    case GenerateFailed(w, _) => w in s.tasks && s.tasks[w].Generating?
    case Generated(w) => w in s.tasks && s.tasks[w].Generating?
    case LockPair(w, r1, r2) =>
      && s.selecting.None? && w !in s.tasks && r1 in s.rows && r2 in s.rows && r1.hi + 1 == r2.lo
      && s.rows[r1] == s.rows[r2] == Row(false, true)
    case AggregateFailed(w, _) => w in s.tasks && s.tasks[w].Aggregating?
    case AggregateCommitted(w, _) => w in s.tasks && s.tasks[w].Aggregating?
    case ReadForFinal(w) => w in s.tasks ==> s.tasks[w].Holding?
    case LockForFinal(w, r) =>
      && s.selecting.None? && w !in s.tasks && r in s.rows && !s.rows[r].locked
      && w in s.finals && r.lo == s.finals[w] + 1
    case Discard(w) => w in s.tasks && s.tasks[w].Holding? && w in s.finals && s.tasks[w].r.hi <= s.finals[w]
    case HandOver(w, to) => w in s.tasks && s.tasks[w].Holding? && to !in s.tasks
    case Release(w, _) => w in s.tasks && s.tasks[w].Holding?
    case Vanish(w) => w in s.tasks
    case Verify(n) => n >= s.lastVerified
    case Rollback(n) => n <= s.lastVerified
    case DropBatches(_) => true
    case Cleanup(_) => true
    case CleanupStale(r) => r in s.rows && s.rows[r].locked
    case Restart => true
  }

  /** Some worker still answers for the row. */
  predicate Live(s: State, r: Range) {
    exists w :: w in s.tasks && r in s.tasks[w].Rows()
  }

  function Min(x: nat, y: nat): nat {
    if x <= y then x else y
  }

  function Idle(s: State, w: Worker): map<Worker, Task> {
    s.tasks - {w}
  }

  function Apply(s: State, step: Step): State
    requires Enabled(s, step)
  {
    match step
    case BeginSelect =>
      s.(selecting := Some(s.lastVerified))
    case EndSelect =>
      s.(selecting := None)
    case LockBatch(w, b) =>
      var r := Range(b, b);
      s.(rows := s.rows[r := Row(true, false)], tasks := s.tasks[w := Generating(r)], selecting := None)
    case GenerateFailed(w, deleted) =>
      s.(rows := if deleted then DeleteBatchProofs(s.rows, s.tasks[w].r) else s.rows, tasks := Idle(s, w))
    case Generated(w) =>
      s.(tasks := s.tasks[w := Holding(s.tasks[w].r)])
    case LockPair(w, r1, r2) =>
      s.(rows := s.rows[r1 := Row(true, true)][r2 := Row(true, true)], tasks := s.tasks[w := Aggregating(r1, r2)])
    case AggregateFailed(w, unlocked) =>
      var Aggregating(r1, r2) := s.tasks[w];
      var open := Row(false, true);
      s.(rows := if unlocked then UpdateRow(UpdateRow(s.rows, r1, open), r2, open) else s.rows, tasks := Idle(s, w))
    case AggregateCommitted(w, reported) =>
      // an unreported commit leaves the worker trying to unlock two rows that no longer exist
      var merged := s.tasks[w].Claim();
      s.(rows := DeleteBatchProofs(s.rows, merged)[merged := Row(true, true)],
         tasks := if reported then s.tasks[w := Holding(merged)] else Idle(s, w))
    case ReadForFinal(w) =>
      s.(finals := s.finals[w := s.lastVerified])
    case LockForFinal(w, r) =>
      s.(rows := s.rows[r := s.rows[r].(locked := true)], tasks := s.tasks[w := Holding(r)], finals := s.finals - {w})
    case Discard(w) =>
      s.(rows := DeleteBatchProofs(s.rows, s.tasks[w].r), finals := s.finals - {w})
    case HandOver(w, to) =>
      s.(tasks := Idle(s, w)[to := s.tasks[w]], finals := s.finals - {w})
    case Release(w, updated) =>
      s.(rows := if updated then UpdateRow(s.rows, s.tasks[w].r, Row(false, true)) else s.rows,
         tasks := Idle(s, w), finals := s.finals - {w})
    case Vanish(w) =>
      s.(tasks := Idle(s, w), finals := s.finals - {w})
    case Verify(n) =>
      s.(lastVerified := n)
    case Rollback(n) =>
      s.(lastVerified := n)
    case DropBatches(n) =>
      s.(rows := KeepBatchesUpTo(s.rows, n), lastVerified := Min(s.lastVerified, n))
    case Cleanup(upTo) =>
      s.(rows := CleanupBatchProofs(s.rows, upTo))
    case CleanupStale(r) =>
      s.(rows := s.rows - {r})
    case Restart =>
      s.(rows := DeleteUngenerated(s.rows), tasks := map[], selecting := None, finals := map[])
  }

  /** The least batch number past which a selection, open or new, may look for work. */
  function Floor(s: State): nat {
    if s.selecting.Some? then Min(s.lastVerified, s.selecting.value) else s.lastVerified
  }

  // ----- The invariant -----

  ghost predicate RowsDisjoint(rows: Table) {
    && (forall r :: r in rows ==> r.lo <= r.hi)
    && (forall r, q :: r in rows && q in rows && r != q ==> r.Disjoint(q))
  }

  /** No two workers answer for the same batch. */
  ghost predicate ClaimsDisjoint(tasks: map<Worker, Task>) {
    && (forall w :: w in tasks ==> tasks[w].WellFormed())
    && (forall w, v :: w in tasks && v in tasks && w != v ==> tasks[w].Claim().Disjoint(tasks[v].Claim()))
  }

  /** Against one worker's task, a row is either its own and locked, or about other batches. */
  ghost predicate RowRespects(rows: Table, r: Range, task: Task)
    requires r in rows
  {
    if r in task.Rows() then rows[r].locked else r.Disjoint(task.Claim())
  }

  /** A worker can lose a row only to the clean-up of batches that no selection looks at. */
  ghost predicate KeepsRows(rows: Table, floor: nat, task: Task) {
    forall r :: r in task.Rows() ==> r in rows || r.hi <= floor
  }

  ghost predicate RowsRespect(rows: Table, task: Task) {
    forall r :: r in rows ==> RowRespects(rows, r, task)
  }

  ghost predicate Respected(rows: Table, floor: nat, task: Task) {
    RowsRespect(rows, task) && KeepsRows(rows, floor, task)
  }

  ghost predicate Inv(s: State) {
    && RowsDisjoint(s.rows)
    && ClaimsDisjoint(s.tasks)
    && (forall w :: w in s.tasks ==> Respected(s.rows, Floor(s), s.tasks[w]))
  }

  /** What is left of the invariant when workers may have lost rows of unverified batches. */
  ghost predicate Sound(s: State) {
    && RowsDisjoint(s.rows)
    && ClaimsDisjoint(s.tasks)
    && (forall w :: w in s.tasks ==> RowsRespect(s.rows, s.tasks[w]))
  }

  /** A worker's row of batches that still need a proof is gone. */
  ghost predicate Lost(s: State, w: Worker, r: Range) {
    w in s.tasks && r in s.tasks[w].Rows() && r !in s.rows && r.hi > Floor(s)
  }

  ghost predicate Exposed(s: State) {
    exists w, r :: Lost(s, w, r)
  }

  lemma SoundIsInv(s: State)
    requires Sound(s) && !Exposed(s)
    ensures Inv(s)
  {
    forall w | w in s.tasks
      ensures KeepsRows(s.rows, Floor(s), s.tasks[w])
    {
      assert forall r :: r in s.tasks[w].Rows() ==> !Lost(s, w, r);
    }
  }

  /** A batch that the selection query returns is claimed by nobody. */
  lemma UncoveredIsUnclaimed(s: State, b: nat, w: Worker)
    requires Inv(s) && w in s.tasks && b > Floor(s) && !Covered(s.rows, b)
    ensures !s.tasks[w].Claim().Has(b)
  {
    var task := s.tasks[w];
    assert task.WellFormed() && KeepsRows(s.rows, Floor(s), task);
    if task.Aggregating? {
      assert task.r1 in task.Rows() && task.r2 in task.Rows();
    } else {
      assert task.r in task.Rows();
    }
  }

  /** Deleting a worker's own range removes its own rows and no other. */
  lemma DeleteIsPrecise(s: State, w: Worker)
    requires Inv(s) && w in s.tasks
    ensures DeleteBatchProofs(s.rows, s.tasks[w].Claim()) == s.rows - s.tasks[w].Rows()
  {
    var task := s.tasks[w];
    assert task.WellFormed() && Respected(s.rows, Floor(s), task);
    forall r | r in s.rows
      ensures r.Within(task.Claim()) <==> r in task.Rows()
    {
      assert RowRespects(s.rows, r, task);
    }
  }

  // ----- Every step keeps the invariant -----

  /** No row belongs to two workers. */
  lemma NotMine(s: State, w: Worker, v: Worker, r: Range)
    requires Inv(s) && w in s.tasks && v in s.tasks && w != v
    ensures !(r in s.tasks[w].Rows() && r in s.tasks[v].Rows())
  {
    assert s.tasks[w].WellFormed() && s.tasks[v].WellFormed();
    assert s.tasks[w].Claim().Disjoint(s.tasks[v].Claim());
  }

  /** A new row over other batches means nothing to a worker. */
  lemma NewRowRespected(rows: Table, floor: nat, task: Task, r: Range, row: Row)
    requires Respected(rows, floor, task) && task.WellFormed() && r.lo <= r.hi && r.Disjoint(task.Claim())
    ensures Respected(rows[r := row], floor, task)
  {
    var rows' := rows[r := row];
    forall q | q in rows'
      ensures RowRespects(rows', q, task)
    {
      assert q in rows ==> RowRespects(rows, q, task);
    }
  }

  /** Inserting a locked row over batches nobody else has, held by a new worker. */
  lemma InsertKeeps(s: State, w: Worker, r: Range, row: Row, task: Task)
    requires Inv(s) && w !in s.tasks && r.lo <= r.hi && row.locked
    requires task.Rows() == {r} && task.Claim() == r && task.WellFormed()
    requires forall q :: q in s.rows ==> q.Disjoint(r)
    requires forall v :: v in s.tasks ==> s.tasks[v].Claim().Disjoint(r)
    ensures Inv(s.(rows := s.rows[r := row], tasks := s.tasks[w := task]))
  {
    var rows, tasks := s.rows[r := row], s.tasks[w := task];
    NewClaim(s.tasks, w, task);
    assert RowsDisjoint(rows) && Respected(rows, Floor(s), task);
    forall v | v in s.tasks
      ensures Respected(rows, Floor(s), s.tasks[v])
    {
      NewRowRespected(s.rows, Floor(s), s.tasks[v], r, row);
    }
  }

  /** Moving the floor up, and what workers have read, matters to no row. */
  lemma HigherFloorKeeps(s: State, s': State)
    requires Inv(s) && s'.rows == s.rows && s'.tasks == s.tasks && Floor(s') >= Floor(s)
    ensures Inv(s')
  {
    forall w | w in s.tasks
      ensures Respected(s'.rows, Floor(s'), s'.tasks[w])
    {
      assert Respected(s.rows, Floor(s), s.tasks[w]);
    }
  }

  lemma LockBatchKeeps(s: State, w: Worker, b: nat)
    requires Inv(s) && Enabled(s, LockBatch(w, b))
    ensures Inv(Apply(s, LockBatch(w, b)))
  {
    var r := Range(b, b);
    forall v | v in s.tasks
      ensures s.tasks[v].Claim().Disjoint(r)
    {
      UncoveredIsUnclaimed(s, b, v);
    }
    InsertKeeps(s, w, r, Row(true, false), Generating(r));
    HigherFloorKeeps(s.(rows := s.rows[r := Row(true, false)], tasks := s.tasks[w := Generating(r)]),
                     Apply(s, LockBatch(w, b)));
  }

  /** Unlocked rows over contiguous batches concern no worker and no other row. */
  lemma UnlockedIsApart(s: State, task: Task)
    requires Inv(s) && task.WellFormed() && task.Rows() <= s.rows.Keys
    requires forall r :: r in task.Rows() ==> !s.rows[r].locked
    ensures forall v :: v in s.tasks ==> s.tasks[v].Claim().Disjoint(task.Claim())
    ensures forall r :: r in s.rows && r !in task.Rows() ==> r.Disjoint(task.Claim())
  {
    var r1, r2 := if task.Aggregating? then task.r1 else task.r, if task.Aggregating? then task.r2 else task.r;
    assert r1 in task.Rows() && r2 in task.Rows();
    forall v | v in s.tasks
      ensures s.tasks[v].Claim().Disjoint(task.Claim())
    {
      assert Respected(s.rows, Floor(s), s.tasks[v]) && s.tasks[v].WellFormed();
      assert RowRespects(s.rows, r1, s.tasks[v]) && RowRespects(s.rows, r2, s.tasks[v]);
    }
  }

  lemma NewClaim(tasks: map<Worker, Task>, w: Worker, task: Task)
    requires ClaimsDisjoint(tasks) && w !in tasks && task.WellFormed()
    requires forall v :: v in tasks ==> tasks[v].Claim().Disjoint(task.Claim())
    ensures ClaimsDisjoint(tasks[w := task])
  {
  }

  /** Locking such rows for a new worker. */
  lemma TakeKeeps(s: State, w: Worker, rows: Table, task: Task)
    requires Inv(s) && w !in s.tasks && task.WellFormed()
    requires rows.Keys == s.rows.Keys && task.Rows() <= rows.Keys
    requires forall r :: r in rows ==>
      if r in task.Rows() then rows[r].locked && !s.rows[r].locked else rows[r] == s.rows[r]
    ensures Inv(s.(rows := rows, tasks := s.tasks[w := task]))
  {
    UnlockedIsApart(s, task);
    NewClaim(s.tasks, w, task);
    assert RowsDisjoint(rows) && Respected(rows, Floor(s), task);
    forall v | v in s.tasks
      ensures Respected(rows, Floor(s), s.tasks[v])
    {
      assert Respected(s.rows, Floor(s), s.tasks[v]);
      forall r | r in rows
        ensures RowRespects(rows, r, s.tasks[v])
      {
        assert RowRespects(s.rows, r, s.tasks[v]);
      }
    }
  }

  /** A worker stops: its own rows may be unlocked or deleted, all others are as they were. */
  lemma StopKeeps(s: State, w: Worker, rows: Table)
    requires Inv(s) && w in s.tasks && rows.Keys <= s.rows.Keys
    requires forall r :: r in s.rows && r !in s.tasks[w].Rows() ==> r in rows && rows[r] == s.rows[r]
    ensures Inv(s.(rows := rows, tasks := Idle(s, w)))
  {
    forall v | v in s.tasks && v != w
      ensures Respected(rows, Floor(s), s.tasks[v])
    {
      var task := s.tasks[v];
      assert Respected(s.rows, Floor(s), task);
      forall r | r in task.Rows()
        ensures r !in s.tasks[w].Rows()
      {
        NotMine(s, w, v, r);
      }
      forall r | r in rows
        ensures RowRespects(rows, r, task)
      {
        assert RowRespects(s.rows, r, task);
      }
    }
  }

  /** What a merging worker answers for concerns no row but its own and no other worker. */
  lemma ClaimIsApart(s: State, w: Worker)
    requires Inv(s) && w in s.tasks
    ensures s.tasks[w].Claim().lo <= s.tasks[w].Claim().hi
    ensures forall r :: r in s.rows - s.tasks[w].Rows() ==> r.Disjoint(s.tasks[w].Claim())
    ensures forall v :: v in Idle(s, w) ==> s.tasks[v].Claim().Disjoint(s.tasks[w].Claim())
  {
    var task := s.tasks[w];
    assert task.WellFormed() && Respected(s.rows, Floor(s), task);
    forall r | r in s.rows - task.Rows()
      ensures r.Disjoint(task.Claim())
    {
      assert RowRespects(s.rows, r, task);
    }
  }

  lemma CommitKeeps(s: State, step: Step)
    requires Inv(s) && step.AggregateCommitted? && Enabled(s, step)
    ensures Inv(Apply(s, step))
  {
    var w := step.w;
    var merged := s.tasks[w].Claim();
    var rows := s.rows - s.tasks[w].Rows();
    DeleteIsPrecise(s, w);
    ClaimIsApart(s, w);
    StopKeeps(s, w, rows);
    InsertKeeps(s.(rows := rows, tasks := Idle(s, w)), w, merged, Row(true, true), Holding(merged));
    var held := s.(rows := rows[merged := Row(true, true)], tasks := s.tasks[w := Holding(merged)]);
    assert held.tasks == Idle(s, w)[w := Holding(merged)];
    if !step.reported {
      StopKeeps(held, w, held.rows);
      assert Idle(held, w) == Idle(s, w);
    }
  }

  /** Removing rows, or moving the last verified batch, can only expose rows. */
  lemma ShrinkIsSound(s: State, s': State)
    requires Inv(s) && s'.tasks == s.tasks
    requires s'.rows.Keys <= s.rows.Keys && (forall r :: r in s'.rows ==> s'.rows[r] == s.rows[r])
    ensures Sound(s')
  {
    var rows := s'.rows;
    forall v | v in s.tasks
      ensures RowsRespect(rows, s.tasks[v])
    {
      assert Respected(s.rows, Floor(s), s.tasks[v]);
      forall r | r in rows
        ensures RowRespects(rows, r, s.tasks[v])
      {
        assert RowRespects(s.rows, r, s.tasks[v]);
      }
    }
  }

  /** Replacing a worker, or its task, by one with the same rows and claim. */
  lemma RenameKeeps(s: State, w: Worker, to: Worker, task: Task)
    requires Inv(s) && w in s.tasks && (to == w || to !in s.tasks)
    requires task.Rows() == s.tasks[w].Rows() && task.Claim() == s.tasks[w].Claim() && task.WellFormed()
    ensures Inv(s.(tasks := Idle(s, w)[to := task]))
  {
    var tasks := Idle(s, w)[to := task];
    assert Respected(s.rows, Floor(s), task) by {
      assert Respected(s.rows, Floor(s), s.tasks[w]);
      forall r | r in s.rows
        ensures RowRespects(s.rows, r, task)
      {
        assert RowRespects(s.rows, r, s.tasks[w]);
      }
    }
    assert forall v :: v in tasks && v != to ==> v in s.tasks && v != w && tasks[v] == s.tasks[v];
    assert ClaimsDisjoint(tasks) by {
      forall v | v in tasks && v != to
        ensures tasks[v].Claim().Disjoint(task.Claim()) && task.Claim().Disjoint(tasks[v].Claim())
      {
        assert s.tasks[v].Claim().Disjoint(s.tasks[w].Claim());
      }
    }
  }

  lemma StopStepKeeps(s: State, step: Step)
    requires step.GenerateFailed? || step.AggregateFailed? || step.Release? || step.Vanish?
    requires Inv(s) && Enabled(s, step)
    ensures Inv(Apply(s, step))
  {
    if step.GenerateFailed? {
      DeleteIsPrecise(s, step.w);
    }
    var s' := Apply(s, step);
    StopKeeps(s, step.w, s'.rows);
    HigherFloorKeeps(s.(rows := s'.rows, tasks := Idle(s, step.w)), s');
  }

  lemma TakeStepKeeps(s: State, step: Step)
    requires step.LockPair? || step.LockForFinal?
    requires Inv(s) && Enabled(s, step)
    ensures Inv(Apply(s, step))
  {
    var task := if step.LockPair? then Aggregating(step.r1, step.r2) else Holding(step.r);
    var s' := Apply(s, step);
    TakeKeeps(s, step.w, s'.rows, task);
    HigherFloorKeeps(s.(rows := s'.rows, tasks := s.tasks[step.w := task]), s');
  }

  predicate Shrinks(step: Step) {
    || step.Verify? || step.Rollback? || step.DropBatches? || step.Cleanup? || step.CleanupStale? || step.Discard?
  }

  /** What a step must grant a row that some worker still answers for. */
  predicate Spares(s: State, step: Step, r: Range) {
    match step
    case CleanupStale(q) => r == q ==> r.hi <= Floor(s)
    case Discard(w) => w in s.tasks && r in s.tasks[w].Rows() ==> r.hi <= Floor(s)
    case Cleanup(upTo) => r in s.rows && r.hi <= upTo ==> r.hi <= Floor(s)
    case Rollback(n) => r !in s.rows ==> r.hi <= n
    case DropBatches(n) => r.hi > Min(Floor(s), n) ==> r in s.rows && r.hi <= n
    case _ => true
  }

  /**
   The guard that the code does not have: a worker's rows of batches that still need a proof are not deleted,
   and batches whose rows were deleted under a worker do not become unverified again.
   */
  ghost predicate Benign(s: State, step: Step) {
    forall r :: Live(s, r) ==> Spares(s, step, r)
  }

  lemma ShrinkStepIsSound(s: State, step: Step)
    requires Shrinks(step) && Inv(s) && Enabled(s, step)
    ensures Sound(Apply(s, step)) && Apply(s, step).tasks == s.tasks
  {
    ShrinkIsSound(s, Apply(s, step));
  }

  /** A worker of a good state has lost no row of an unverified batch. */
  lemma NothingLost(s: State, r: Range)
    requires Inv(s) && Live(s, r)
    ensures r in s.rows || r.hi <= Floor(s)
  {
    var w :| w in s.tasks && r in s.tasks[w].Rows();
    assert Respected(s.rows, Floor(s), s.tasks[w]);
  }

  lemma SparedOrLost(s: State, step: Step, r: Range)
    requires Shrinks(step) && Inv(s) && Enabled(s, step) && Live(s, r)
    ensures var s' := Apply(s, step); Spares(s, step, r) <==> r in s'.rows || r.hi <= Floor(s')
  {
    NothingLost(s, r);
    if step.Discard? {
      DeleteIsPrecise(s, step.w);
    }
  }

  /** A step exposes a row exactly when the guard fails. */
  lemma GuardExposes(s: State, step: Step)
    requires Shrinks(step) && Inv(s) && Enabled(s, step)
    ensures Benign(s, step) <==> !Exposed(Apply(s, step))
  {
    var s' := Apply(s, step);
    ShrinkStepIsSound(s, step);
    if Exposed(s') {
      var w, r :| Lost(s', w, r);
      assert Live(s, r);
      SparedOrLost(s, step, r);
    }
    if !Benign(s, step) {
      var r :| Live(s, r) && !Spares(s, step, r);
      SparedOrLost(s, step, r);
      var w :| w in s.tasks && r in s.tasks[w].Rows();
      assert Lost(s', w, r);
    }
  }

  lemma ShrinkStepKeeps(s: State, step: Step)
    requires Shrinks(step) && Inv(s) && Enabled(s, step) && Benign(s, step)
    ensures Inv(Apply(s, step))
  {
    ShrinkStepIsSound(s, step);
    GuardExposes(s, step);
    SoundIsInv(Apply(s, step));
  }

  lemma GeneratedKeeps(s: State, w: Worker)
    requires Inv(s) && Enabled(s, Generated(w))
    ensures Inv(Apply(s, Generated(w)))
  {
    assert s.tasks[w].WellFormed();
    var held := Holding(s.tasks[w].r);
    RenameKeeps(s, w, w, held);
    assert Idle(s, w)[w := held] == s.tasks[w := held];
  }

  lemma HandOverKeeps(s: State, w: Worker, to: Worker)
    requires Inv(s) && Enabled(s, HandOver(w, to))
    ensures Inv(Apply(s, HandOver(w, to)))
  {
    assert s.tasks[w].WellFormed();
    RenameKeeps(s, w, to, s.tasks[w]);
    HigherFloorKeeps(s.(tasks := Idle(s, w)[to := s.tasks[w]]), Apply(s, HandOver(w, to)));
  }

  lemma StepKeeps(s: State, step: Step)
    requires Inv(s) && Enabled(s, step) && Benign(s, step)
    ensures Inv(Apply(s, step))
  {
    if step.LockBatch? {
      LockBatchKeeps(s, step.w, step.b);
    } else if step.AggregateCommitted? {
      CommitKeeps(s, step);
    } else if step.LockPair? || step.LockForFinal? {
      TakeStepKeeps(s, step);
    } else if step.GenerateFailed? || step.AggregateFailed? || step.Release? || step.Vanish? {
      StopStepKeeps(s, step);
    } else if step.Generated? {
      GeneratedKeeps(s, step.w);
    } else if step.HandOver? {
      HandOverKeeps(s, step.w, step.to);
    } else if Shrinks(step) {
      ShrinkStepKeeps(s, step);
    } else if !step.Restart? {
      HigherFloorKeeps(s, Apply(s, step));
    }
  }

  // ----- Runs -----

  ghost predicate IsRun(states: seq<State>, steps: seq<Step>) {
    && |states| == |steps| + 1
    && states[0].rows == map[] && states[0].tasks == map[] && states[0].selecting.None? && states[0].finals == map[]
    && forall i :: 0 <= i < |steps| ==> Enabled(states[i], steps[i]) && states[i + 1] == Apply(states[i], steps[i])
  }

  ghost predicate GuardedUpTo(states: seq<State>, steps: seq<Step>, n: nat) {
    n <= |steps| < |states| && forall i :: 0 <= i < n ==> Benign(states[i], steps[i])
  }

  ghost predicate Guarded(states: seq<State>, steps: seq<Step>) {
    GuardedUpTo(states, steps, |steps|)
  }

  lemma {:induction false} ReachableInv(states: seq<State>, steps: seq<Step>, i: nat)
    requires IsRun(states, steps) && Guarded(states, steps) && i < |states|
    ensures Inv(states[i])
  {
    if i > 0 {
      ReachableInv(states, steps, i - 1);
      StepKeeps(states[i - 1], steps[i - 1]);
    }
  }

  /** No batch is in two rows; a row has at most one worker, and only while it is locked. */
  ghost predicate OneHolder(s: State) {
    && (forall r, q, b: nat :: r in s.rows && q in s.rows && r.Has(b) && q.Has(b) ==> r == q)
    && (forall w, v, r :: w in s.tasks && v in s.tasks && r in s.tasks[w].Rows() && r in s.tasks[v].Rows() ==> w == v)
    && (forall w, r :: w in s.tasks && r in s.tasks[w].Rows() && r in s.rows ==> s.rows[r].locked)
  }

  /** This holds over every interleaving of any number of workers. */
  lemma RowsAndHolders(states: seq<State>, steps: seq<Step>, i: nat)
    requires IsRun(states, steps) && Guarded(states, steps) && i < |states|
    ensures OneHolder(states[i])
  {
    ReachableInv(states, steps, i);
    var s := states[i];
    forall w, v, r | w in s.tasks && v in s.tasks && r in s.tasks[w].Rows() && r in s.tasks[v].Rows()
      ensures w == v
    {
      if w != v {
        NotMine(s, w, v, r);
      }
    }
    forall w, r | w in s.tasks && r in s.tasks[w].Rows() && r in s.rows
      ensures s.rows[r].locked
    {
      assert Respected(s.rows, Floor(s), s.tasks[w]) && RowRespects(s.rows, r, s.tasks[w]);
    }
  }

  // ----- Which batches are covered -----

  /** An aggregation covers after it, committed or failed, the batches covered before it. */
  lemma AggregationConserves(s: State, step: Step, b: nat)
    requires Inv(s) && (step.AggregateCommitted? || step.AggregateFailed? || step.LockPair?) && Enabled(s, step)
    ensures b > Floor(s) || (step.AggregateCommitted? ==> s.tasks[step.w].Rows() <= s.rows.Keys) ==>
              (Covered(Apply(s, step).rows, b) <==> Covered(s.rows, b))
  {
    var s' := Apply(s, step);
    if step.AggregateCommitted? {
      DeleteIsPrecise(s, step.w);
      var task := s.tasks[step.w];
      var merged := task.Claim();
      assert task.WellFormed() && Respected(s.rows, Floor(s), task);
      assert task.r1 in task.Rows() && task.r2 in task.Rows();
      assert merged in s'.rows;
      forall r | r in s.rows
        ensures r in s'.rows || (r in task.Rows() && forall c :: r.Has(c) ==> merged.Has(c))
      {
      }
      assert merged.Has(b) <==> task.r1.Has(b) || task.r2.Has(b);
    } else {
      assert s'.rows.Keys == s.rows.Keys;
    }
  }

  /** Starting a proof covers one more batch; giving it up uncovers that batch and no other. */
  lemma GenerationAccounts(s: State, step: Step, b: nat)
    requires Inv(s) && (step.LockBatch? || step.GenerateFailed?) && Enabled(s, step)
    ensures var after := Covered(Apply(s, step).rows, b);
            if step.LockBatch? then after <==> Covered(s.rows, b) || b == step.b
            else if step.deleted then after <==> Covered(s.rows, b) && !s.tasks[step.w].r.Has(b)
            else after <==> Covered(s.rows, b)
  {
    var s' := Apply(s, step);
    if step.LockBatch? {
      assert Range(step.b, step.b) in s'.rows;
      assert forall r :: r in s.rows ==> r in s'.rows;
    } else {
      DeleteIsPrecise(s, step.w);
      var mine := s.tasks[step.w].r;
      forall r | r in s.rows && r != mine && step.deleted
        ensures r in s'.rows && (r.Has(b) ==> !mine.Has(b))
      {
        assert Respected(s.rows, Floor(s), s.tasks[step.w]) && RowRespects(s.rows, r, s.tasks[step.w]);
      }
    }
  }

  // ----- When one batch goes to two workers -----

  /** A worker number that is not in use. */
  lemma {:induction false} FreshWorker(used: set<Worker>) returns (v: Worker)
    ensures forall w :: w in used ==> w < v
  {
    if used == {} {
      v := 0;
    } else {
      var w :| w in used;
      var u := FreshWorker(used - {w});
      v := if u > w then u else w + 1;
      assert forall x :: x in used ==> x == w || x in used - {w};
    }
  }

  /** The open selection gives batch `b` to `v` although another worker still answers for it. */
  ghost predicate Doubles(s: State, v: Worker, b: nat) {
    Enabled(s, LockBatch(v, b)) && !ClaimsDisjoint(Apply(s, LockBatch(v, b)).tasks)
  }

  /** The selection after the open one, if any, has ended without a batch. */
  function NextSelection(s: State): State {
    Apply(if s.selecting.Some? then Apply(s, EndSelect) else s, BeginSelect)
  }

  /** The open selection, or the next one, can give one batch to two workers. */
  ghost predicate DoubleAssigns(s: State) {
    exists v, b :: Doubles(s, v, b) || Doubles(NextSelection(s), v, b)
  }

  /** Every batch of a lost row that the open selection looks at is given to whoever asks. */
  lemma LostRowDuplicates(s: State, w: Worker, r: Range, v: Worker, b: nat)
    requires Sound(s) && w in s.tasks && r in s.tasks[w].Rows() && r !in s.rows
    requires s.selecting.Some? && v !in s.tasks && r.Has(b) && b > s.selecting.value
    ensures Doubles(s, v, b)
  {
    var task := s.tasks[w];
    assert task.WellFormed() && task.Claim().Has(b);
    forall q | q in s.rows
      ensures !q.Has(b)
    {
      assert RowRespects(s.rows, q, task);
    }
    var tasks := Apply(s, LockBatch(v, b)).tasks;
    assert tasks[w] == task && tasks[v].Claim() == Range(b, b);
    assert !tasks[w].Claim().Disjoint(tasks[v].Claim());
  }

  lemma GoodSelects(s: State, v: Worker, b: nat)
    requires Inv(s)
    ensures !Doubles(s, v, b)
  {
    if Enabled(s, LockBatch(v, b)) {
      LockBatchKeeps(s, v, b);
    }
  }

  lemma ExposedDuplicates(s: State)
    requires Sound(s)
    ensures DoubleAssigns(s) <==> Exposed(s)
  {
    var next := NextSelection(s);
    if Exposed(s) {
      var w, r :| Lost(s, w, r);
      assert s.tasks[w].WellFormed();
      var v := FreshWorker(s.tasks.Keys);
      if r.hi > s.lastVerified {
        LostRowDuplicates(next, w, r, v, r.hi);
      } else {
        LostRowDuplicates(s, w, r, v, r.hi);
      }
      assert Doubles(s, v, r.hi) || Doubles(next, v, r.hi);
    } else {
      SoundIsInv(s);
      HigherFloorKeeps(s, next);
      forall v, b
        ensures !Doubles(s, v, b) && !Doubles(next, v, b)
      {
        GoodSelects(s, v, b);
        GoodSelects(next, v, b);
      }
    }
  }

  /**
   Between the query of a selection and its insertion nothing else can cover the batch it found, so that the
   two may be seen as one step.
   */
  lemma SelectedStaysFree(s: State, step: Step, b: nat)
    requires Inv(s) && Enabled(s, step) && !step.LockBatch?
    requires s.selecting.Some? && b > s.selecting.value && !Covered(s.rows, b)
    ensures !Covered(Apply(s, step).rows, b)
  {
    if step.AggregateCommitted? {
      UncoveredIsUnclaimed(s, b, step.w);
    }
  }

  /** From a good state, a step lets the next selection assign a batch twice if and only if it fails the guard. */
  lemma GuardExact(s: State, step: Step)
    requires Inv(s) && Enabled(s, step)
    ensures Benign(s, step) <==> !DoubleAssigns(Apply(s, step))
  {
    var s' := Apply(s, step);
    if Shrinks(step) {
      ShrinkStepIsSound(s, step);
      GuardExposes(s, step);
    } else {
      StepKeeps(s, step);
    }
    InvIsSound(s');
    if Sound(s') {
      ExposedDuplicates(s');
    }
  }

  lemma InvIsSound(s: State)
    ensures Inv(s) ==> Sound(s) && !Exposed(s)
  {
    if Inv(s) {
      forall w, r | w in s.tasks && r in s.tasks[w].Rows()
        ensures !Lost(s, w, r)
      {
        assert Live(s, r);
        NothingLost(s, r);
      }
    }
  }

  ghost predicate Undoubled(states: seq<State>) {
    forall i :: 0 <= i < |states| ==> !DoubleAssigns(states[i])
  }

  lemma UndoubledStep(s: State, step: Step, s': State)
    requires Inv(s) && Enabled(s, step) && s' == Apply(s, step) && !DoubleAssigns(s')
    ensures Benign(s, step) && Inv(s')
  {
    GuardExact(s, step);
    StepKeeps(s, step);
  }

  lemma {:induction false} UndoubledIsGuarded(states: seq<State>, steps: seq<Step>, i: nat)
    requires IsRun(states, steps) && Undoubled(states) && i <= |steps|
    ensures Inv(states[i]) && GuardedUpTo(states, steps, i)
  {
    if i > 0 {
      UndoubledIsGuarded(states, steps, i - 1);
      UndoubledStep(states[i - 1], steps[i - 1], states[i]);
    }
  }

  /** Over a whole run no selection can assign a batch twice if and only if every step respected the guard. */
  lemma RunGuardExact(states: seq<State>, steps: seq<Step>)
    requires IsRun(states, steps)
    ensures Guarded(states, steps) <==> Undoubled(states)
  {
    if Guarded(states, steps) {
      forall i | 0 <= i < |states|
        ensures !DoubleAssigns(states[i])
      {
        ReachableInv(states, steps, i);
        InvIsSound(states[i]);
        ExposedDuplicates(states[i]);
      }
    }
    if Undoubled(states) {
      UndoubledIsGuarded(states, steps, |steps|);
    }
  }
}
