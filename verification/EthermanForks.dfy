/** The fork intervals of the rollup, from the L1 log (etherman/etherman.go, GetForks). */
module EthermanForks {
  import opened Wrappers
  import opened Sequences

  const MAX_UINT64: nat := 0xFFFF_FFFF_FFFF_FFFF
  const TWO_64: nat := MAX_UINT64 + 1

  /** The sum of two 64-bit numbers as the code computes it. */
  function Add64(x: nat, y: nat): nat {
    if x + y < TWO_64 then x + y else x + y - TWO_64
  }

  type BatchNumber = n: nat | n <= MAX_UINT64

  datatype Update = Update(numBatch: BatchNumber, forkId: nat, version: string, block: nat)

  /** One log of the four queried kinds: of another rollup, unreadable, or a fork update of ours. */
  datatype ForkLog = Foreign | Failing | Own(update: Update)

  datatype Interval = Interval(from: nat, to: nat, forkId: nat, version: string, block: nat)

  /** `Panic` is the index of an empty list that the code does not guard. */
  datatype Outcome = Forks(forks: seq<Interval>) | Error | Panic

  // ----- The chunked query -----

  /** The logs of blocks `from` up to but not including `until`, in order. */
  ghost function LogsIn(logsOf: nat -> seq<ForkLog>, from: nat, until: nat): seq<ForkLog>
    decreases until
  {
    if until <= from then [] else LogsIn(logsOf, from, until - 1) + logsOf(until - 1)
  }

  lemma {:induction false} LogsInSplit(logsOf: nat -> seq<ForkLog>, from: nat, mid: nat, until: nat)
    requires from <= mid <= until
    ensures LogsIn(logsOf, from, mid) + LogsIn(logsOf, mid, until) == LogsIn(logsOf, from, until)
    decreases until
  {
    if mid < until {
      LogsInSplit(logsOf, from, mid, until - 1);
    }
  }

  /** An honest node's answers: the logs of an inclusive range of blocks, or an error. */
  ghost predicate Honest(logsOf: nat -> seq<ForkLog>, query: (nat, nat) -> Option<seq<ForkLog>>) {
    forall i: nat, j: nat :: query(i, j).Some? ==> query(i, j).value == LogsIn(logsOf, i, j + 1)
  }

  /** The first position past the last block that the loop would move to. */
  function PositionPast(i: nat, last: nat, chunkSize: nat): (past: nat)
    requires i <= last
    ensures past > last && past >= i + chunkSize + 1
    decreases last - i
  {
    if i + chunkSize + 1 > last then i + chunkSize + 1 else PositionPast(i + chunkSize + 1, last, chunkSize)
  }

  /** A position that does not fit 64 bits becomes one that was already passed, so the loop goes over it again. */
  lemma WrapGoesBack(i: nat, last: nat, chunkSize: nat)
    requires i <= last < TWO_64 && chunkSize < TWO_64 && i + chunkSize + 1 >= TWO_64
    ensures NextPosition(i, chunkSize) <= i <= last
  {
  }

  function NextPosition(i: nat, chunkSize: nat): nat {
    Add64(Add64(i, chunkSize), 1)
  }

  /** Each position that the loop takes, up to the first past the last block, is past the one before. */
  predicate Advances(i: nat, last: nat, chunkSize: nat)
    decreases last + 1 - i
  {
    i <= last ==> NextPosition(i, chunkSize) > i && Advances(NextPosition(i, chunkSize), last, chunkSize)
  }

  /** The loop never goes back, and so ends, if and only if the position past the last block fits 64 bits. */
  lemma {:induction false} AdvancesExact(i: nat, last: nat, chunkSize: nat)
    requires i <= last < TWO_64 && chunkSize < TWO_64
    ensures Advances(i, last, chunkSize) <==> PositionPast(i, last, chunkSize) < TWO_64
    decreases last - i
  {
    if i + chunkSize + 1 >= TWO_64 {
      WrapGoesBack(i, last, chunkSize);
    } else if i + chunkSize + 1 <= last {
      AdvancesExact(i + chunkSize + 1, last, chunkSize);
    }
  }

  /** Every block from genesis to the last one is asked for exactly once, in order. */
  method QueryForkLogs(
    genesis: nat, lastSynced: nat, chunkSize: nat, query: (nat, nat) -> Option<seq<ForkLog>>,
    ghost logsOf: nat -> seq<ForkLog>) returns (r: Result<seq<ForkLog>>)
    requires Honest(logsOf, query)
    requires PositionPast(genesis, if lastSynced < genesis then genesis else lastSynced, chunkSize) < TWO_64
    ensures r.Ok? ==> r.value == LogsIn(logsOf, genesis, (if lastSynced < genesis then genesis else lastSynced) + 1)
    ensures (forall i: nat, j: nat :: query(i, j).Some?) ==> r.Ok?
  {
    var last := if lastSynced < genesis then genesis else lastSynced;
    var logs: seq<ForkLog> := [];
    var i := genesis;
    while i <= last
      invariant genesis <= i
      invariant i <= last ==> PositionPast(i, last, chunkSize) < TWO_64
      invariant logs == LogsIn(logsOf, genesis, if i <= last then i else last + 1)
      decreases last + 1 - i
    {
      var final := Add64(i, chunkSize);
      if final > last {
        final := last;
      }
      var l := query(i, final);
      if l.None? {
        return Err;
      }
      LogsInSplit(logsOf, genesis, i, final + 1);
      logs := logs + l.value;
      i := NextPosition(i, chunkSize);
    }
    return Ok(logs);
  }

  // ----- Building the intervals -----

  /** The fork updates of this rollup, in order. */
  function Updates(logs: seq<ForkLog>): seq<Update> {
    Collect(UpdateOf, logs)
  }

  function UpdateOf(log: ForkLog): Option<Update> {
    if log.Own? then Some(log.update) else None
  }

  function IntervalAt(us: seq<Update>, i: nat): Interval
    requires i < |us|
  {
    Interval(Add64(us[i].numBatch, 1), if i + 1 < |us| then us[i + 1].numBatch else MAX_UINT64,
             us[i].forkId, us[i].version, us[i].block)
  }

  function Intervals(us: seq<Update>): seq<Interval> {
    seq(|us|, i requires 0 <= i < |us| => IntervalAt(us, i))
  }

  /** The first log is foreign and the first log that is not foreign is ours. */
  ghost predicate StartsForeign(logs: seq<ForkLog>) {
    exists i :: 0 < i < |logs| && logs[i].Own? && forall k :: 0 <= k < i ==> logs[k].Foreign?
  }

  /** The list with its last interval closed and a new one opened. */
  function Extended(forks: seq<Interval>, u: Update): seq<Interval> {
    var last := |forks| - 1;
    var closed := if forks == [] then [] else forks[last := forks[last].(to := u.numBatch)];
    closed + [Interval(Add64(u.numBatch, 1), MAX_UINT64, u.forkId, u.version, u.block)]
  }

  lemma NextInterval(us: seq<Update>, u: Update)
    ensures Intervals(us + [u]) == Extended(Intervals(us), u)
  {
    var after, extended := Intervals(us + [u]), Extended(Intervals(us), u);
    forall i | 0 <= i < |us|
      ensures after[i] == extended[i]
    {
      assert (us + [u])[i] == us[i];
      assert i + 1 < |us| ==> (us + [u])[i + 1] == us[i + 1];
    }
  }

  lemma NextForks(logs: seq<ForkLog>, i: nat)
    requires i < |logs|
    ensures Intervals(Updates(logs[..i + 1])) ==
            if logs[i].Own? then Extended(Intervals(Updates(logs[..i])), logs[i].update)
            else Intervals(Updates(logs[..i]))
  {
    CollectNext(UpdateOf, logs, i);
    if logs[i].Own? {
      NextInterval(Updates(logs[..i]), logs[i].update);
    } else {
      assert Updates(logs[..i + 1]) == Updates(logs[..i]);
    }
  }

  method BuildForks(logs: seq<ForkLog>) returns (r: Outcome)
    ensures r.Panic? <==> StartsForeign(logs)
    ensures r.Error? <==> !StartsForeign(logs) && exists i :: 0 <= i < |logs| && logs[i].Failing?
    ensures r.Forks? ==> r.forks == Intervals(Updates(logs))
  {
    var forks: seq<Interval> := [];
    for i := 0 to |logs|
      invariant forks == Intervals(Updates(logs[..i]))
      invariant forall k :: 0 <= k < i ==> !logs[k].Failing?
      invariant forks == [] ==> forall k :: 0 <= k < i ==> logs[k].Foreign?
      invariant forks != [] ==> logs[0].Own?
    {
      NextForks(logs, i);
      ghost var before := forks;
      match logs[i]
      case Foreign =>
      case Failing =>
        return Error;
      case Own(u) =>
        if i != 0 {
          if |forks| == 0 {
            return Panic;
          }
          var last := |forks| - 1;
          forks := forks[last := forks[last].(to := u.numBatch)];
        }
        forks := forks + [Interval(Add64(u.numBatch, 1), MAX_UINT64, u.forkId, u.version, u.block)];
        assert forks == Extended(before, u);
    }
    assert logs[..|logs|] == logs;
    return Forks(forks);
  }

  // ----- Which fork a batch belongs to -----

  ghost predicate InInterval(us: seq<Update>, i: int, b: nat) {
    0 <= i < |us| && IntervalAt(us, i).from <= b <= IntervalAt(us, i).to
  }

  ghost predicate OneInterval(us: seq<Update>, b: nat) {
    exists i :: InInterval(us, i, b) && forall j :: InInterval(us, j, b) ==> j == i
  }

  /** The last update below `b` among the first `n`. */
  function LastBelow(us: seq<Update>, b: nat, n: nat): (i: nat)
    requires 0 < n <= |us| && us[0].numBatch < b
    ensures i < n && us[i].numBatch < b
    ensures forall k :: i < k < n ==> us[k].numBatch >= b
  {
    if n == 1 || us[n - 1].numBatch < b then n - 1 else LastBelow(us, b, n - 1)
  }

  /** Past the first fork, no update goes back below an earlier one. */
  ghost predicate NeverBack(us: seq<Update>) {
    forall i :: 0 <= i < |us| - 1 && us[i].numBatch > us[0].numBatch ==> us[i].numBatch <= us[i + 1].numBatch
  }

  /** The batch after an update is never past the 64-bit range, where it would become batch 0. */
  ghost predicate NoneWraps(us: seq<Update>) {
    forall i :: 0 <= i < |us| ==> us[i].numBatch < MAX_UINT64
  }

  lemma {:induction false} StaysAbove(us: seq<Update>, k: nat, i: nat, b: nat)
    requires NeverBack(us) && k <= i < |us| && us[0].numBatch < b <= us[k].numBatch
    ensures us[i].numBatch >= b
    decreases i
  {
    if k < i {
      StaysAbove(us, k, i - 1, b);
    }
  }

  /** A batch past the first fork lies in the interval of the last update below it, and in no other. */
  lemma BatchHasItsFork(us: seq<Update>, b: nat)
    requires us != [] && NeverBack(us) && NoneWraps(us) && us[0].numBatch < b <= MAX_UINT64
    ensures InInterval(us, LastBelow(us, b, |us|), b)
    ensures forall j :: InInterval(us, j, b) ==> j == LastBelow(us, b, |us|)
    ensures var i := LastBelow(us, b, |us|);
            var fork := Intervals(us)[i];
            && fork.from <= b <= fork.to
            && fork.forkId == us[i].forkId && fork.version == us[i].version && fork.block == us[i].block
  {
    var i := LastBelow(us, b, |us|);
    forall j | InInterval(us, j, b)
      ensures j == i
    {
      if j < i {
        StaysAbove(us, j + 1, i, b);
      }
    }
  }

  /** Going back below an earlier update puts that update's own batch number in two intervals. */
  lemma GoingBackOverlaps(us: seq<Update>, i: nat)
    requires i + 1 < |us| && us[i].numBatch > us[0].numBatch && us[i].numBatch > us[i + 1].numBatch
    ensures !OneInterval(us, us[i].numBatch)
  {
    var b := us[i].numBatch;
    var j, k := LastBelow(us, b, i), LastBelow(us, b, |us|);
    assert InInterval(us, j, b) && InInterval(us, k, b) && j < k;
  }

  /** An update at the last batch number has an interval of all batches, beside those of the updates before it. */
  lemma WrapOverlaps(us: seq<Update>, i: nat)
    requires i < |us| && us[0].numBatch < MAX_UINT64 == us[i].numBatch && NeverBack(us)
    ensures !OneInterval(us, us[0].numBatch + 1)
  {
    var b := us[0].numBatch + 1;
    assert i + 1 < |us| ==> us[i + 1].numBatch == MAX_UINT64;
    var j := LastBelow(us, b, i);
    assert InInterval(us, i, b) && InInterval(us, j, b);
  }

  /**
   Every later batch belongs to exactly one interval if and only if no update goes back and none is at the last
   batch number; when the first update is there already, there is no later batch.
   */
  lemma IntervalsPartition(us: seq<Update>)
    requires us != []
    ensures (forall b :: us[0].numBatch < b <= MAX_UINT64 ==> OneInterval(us, b))
       <==> NeverBack(us) && (us[0].numBatch == MAX_UINT64 || NoneWraps(us))
  {
    if !NeverBack(us) {
      var i :| 0 <= i < |us| - 1 && us[i].numBatch > us[0].numBatch && us[i].numBatch > us[i + 1].numBatch;
      GoingBackOverlaps(us, i);
    } else if us[0].numBatch < MAX_UINT64 && !NoneWraps(us) {
      var i :| 0 <= i < |us| && us[i].numBatch == MAX_UINT64;
      WrapOverlaps(us, i);
    } else {
      forall b | us[0].numBatch < b <= MAX_UINT64
        ensures OneInterval(us, b)
      {
        BatchHasItsFork(us, b);
      }
    }
  }
}
